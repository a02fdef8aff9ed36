# Verified models of spark-rapids-jni

Dafny models of four parts of the native library, with proofs about them. Each imperative part is a
class or a method with loops, proved against functions on values; the theorems are about those functions
and hold for all inputs, all reachable states or all runs.

**The OOM and retry scheduler** (`spark_resource_adaptor`). `Scheduler.dfy` gives every lock-held section
as a function of the adaptor's state, `Adaptor.dfy` the object whose methods update its tables in place
and are proved to take those steps. `Runs.dfy` lets owner threads call the operations in any interleaving:
each owner is outside, inside a stack of allocation brackets or asleep in the wait loop, and the wait is
the only place where a section is left and entered again. On top of it:
`Safety.dfy` (an inductive invariant), `AllocationBrackets.dfy` (brackets, kinds and frees),
`Wakeups.dfy` (no lost wakeup), `RollbackCauses.dfy` (why BUFN_THROW is entered), `TotalSleep.dfy`
(exactly when somebody stays awake), `RetryCounters.dfy` (every retry is accounted for) and
`WatchdogLimit.dfy` (how often one registration retries). `Witnesses.dfy` has runs that show what happens
where an assumption is dropped or a guarantee ends. `CallOutcomes.dfy` and `Bookkeeping.dfy` tell how each
call ends from the fields of records and the call's flags, `ExceptionKinds.dfy` what kind of memory
exceptions are for. `Leavers.dfy` and `TaskDoneOrder.dfy` say who leaves with a finished task and that the
order does not matter. `Deadlock.dfy`, `DeadlockMeaning.dfy` and `DeadlockBreaking.dfy` treat the deadlock
test, what it means and the rounds that break deadlocks; `Threads.dfy`, `Precedence.dfy` and
`TaskPriority.dfy` the order of threads under a priority table that fills while it is scanned.

**Parquet footer pruning.** `PruneSpec.dfy` is the walk over a flattened schema, `SchemaWalk.dfy` the same
with moving cursors and growing maps, `PruneTree.dfy` what pruning means on trees, `Layouts.dfy` which
layouts of lists and maps it understands, `PruneShape.dfy` when the result is a schema again,
`PruneColumns.dfy` which columns survive, `Footer.dfy` a footer end to end.
`PrunerTree.dfy` and `PrunerForest.dfy` build the pruner from a depth-first list. `RowGroups.dfy` assigns
row groups to parts of a file.

**Host table packing.** `HostTable.dfy` has sizes, bytes, slices and relocation, `HostPacking.dfy` the
packer on an array, `HostReload.dfy` the round trip to a device buffer. The packer checks the room for
data but not for its padding: the buffer sizes that are safe for every table are exactly the multiples of 64.

**NVTXW config strings.** `ConfigText.dfy` has parsing and simplified text, `ConfigMeaning.dfy` what a text
says character by character, and `ConfigSimplifier.dfy` simplifies the very buffer that is being parsed.

`dafny verify dfyconfig.toml` checks everything.

## Assumptions about callers

- Runs (`Runs.Allowed`): an owner makes one call at a time and closes the brackets it opens; task ids are
  not negative and no thread has id -1; a thread is not registered in the middle of its own bracket; an
  entry is not erased while its owner is inside the adaptor. The source needs the last one, since it uses
  an entry again after waiting (line 1357).
- `TotalSleep.SleepsExactlyWhenFatal` needs nothing more. `TotalSleep.NoTotalSleep` derives from it that
  orderly runs never sleep: pool tasks stay covered by dedicated threads and threads leave only while
  RUNNING. `Witnesses.UncoveredRunEndsInTotalSleep` and `Witnesses.EarlyLeaveEndsInTotalSleep` show that
  neither can be dropped.
- `RetryCounters.Countable`: all threads are dedicated, associations are removed by task id and metrics are
  not deleted. `RetryCounters.PoolCountsAreDropped` shows how counters of a pool thread get lost, and
  `Witnesses.PoolRetryIsDropped` has a run on which they do.
- Condition variables are a set of sleepers and a set of signalled ones; a wait may also return unasked.
- `TaskPriority::task_done` does not run in the middle of a lock-held section of the adaptor.
- Names are normalised by a function parameter that stands for `unicode_to_lower` or the identity.
- The number of characters of a string column is a function parameter applied to its children; masks have
  the padded size of 64-byte multiples that libcudf documents.
- The memory guide (`docs/memory_management.md`, line 53) says that the lowest-priority BUFN thread splits
  its input. The code picks the highest, and so does the model.

## Model

| member | source | states |
|---|---|---|
| `TaskPriority.TableStaysValid` | src/main/cpp/src/TaskPriorityJni.cpp:25-60 | After any sequence of lookups and `task_done` calls, live priorities are pairwise distinct, lie above the counter and below that of -1, and the counter has dropped by at most one per request |
| `TaskPriority.PrioritiesFitLong` | src/main/cpp/src/TaskPriorityJni.cpp:25-50 | Up to 2^64 - 2 requests, every priority handed out fits a `long` |
| `TaskPriority.PriorityIsStable` | src/main/cpp/src/TaskPriorityJni.cpp:32-60 | An attempt keeps its priority through any other requests until its own `task_done` |
| `TaskPriority.EarlierOutranksLater` | src/main/cpp/src/TaskPriorityJni.cpp:32-50 | An attempt that is live outranks every attempt first seen later, whatever happens in between |
| `TaskPriority.NewcomersRankBelow` | src/main/cpp/src/TaskPriorityJni.cpp:46-49 | Whatever is first seen after some point ranks at or below the counter's value at that point |
| `TaskPriority.DoneLosesItsRank` | src/main/cpp/src/TaskPriorityJni.cpp:52-60 | An attempt reported done has no priority; seen again, it ranks below every attempt that stayed live |
| `TaskPriority.PriorityTable.GetTaskPriority` | src/main/cpp/src/TaskPriorityJni.cpp:32-50 | The lookup fills the table as specified, returns the known priority, changes no other entry and keeps the table valid |
| `TaskPriority.PriorityTable.TaskDone` | src/main/cpp/src/TaskPriorityJni.cpp:52-60 | Only the finished attempt is dropped, never -1 |
| `Threads.FullScan` | src/main/cpp/src/SparkResourceAdaptorJni.cpp:1703-1724 | A scan over the threads only adds to the priority table, keeps it valid, and leaves every selected thread with a known rank |
| `Threads.BestExists` | src/main/cpp/src/SparkResourceAdaptorJni.cpp:359-381 | In the strict order by task priority and thread id, some selected thread is ahead of all others |
| `Threads.Best` | src/main/cpp/src/SparkResourceAdaptorJni.cpp:350-392 | The thread found is selected and strictly ahead of every other selected one; none is found exactly if none is selected |
| `Threads.BestIsUnique` | src/main/cpp/src/SparkResourceAdaptorJni.cpp:350-392 | No two threads can both be strictly ahead of all others |
| `Precedence.RollsBackTheFirst` | src/main/cpp/src/SparkResourceAdaptorJni.cpp:1941-1990 | The thread told to roll back is in front of all other BLOCKED threads, in an order told from fields: the task it is dedicated to or the least task of its pool, by priority, then by thread id; threads for shuffle or without tasks come last |
| `Precedence.SplitsTheLast` | src/main/cpp/src/SparkResourceAdaptorJni.cpp:2001-2028 | The thread told to split is behind all other BUFN threads in that order |
| `Precedence.WakesTheLast` | src/main/cpp/src/SparkResourceAdaptorJni.cpp:1703-1724 | The thread woken for a kind of memory is behind all others BLOCKED on it in that order |
| `Precedence.RoundsFollowTheTasks` | src/main/cpp/src/SparkResourceAdaptorJni.cpp:619-630 | The same for whole rounds in every configuration that keeps the invariant, whatever the JVM reports |
| `Precedence.ShuffleComesLast` | src/main/cpp/src/SparkResourceAdaptorJni.cpp:619-630 | A pool thread for shuffle never rolls back before a thread with a task id, and is woken and split before it |
| `Precedence.PoolTiesByThread` | src/main/cpp/src/SparkResourceAdaptorJni.cpp:359-381 | Between a pool thread and one dedicated to the least of its tasks the thread ids decide who rolls back, splits and is woken first |
| `Precedence.PoolFollowsItsLeastTask` | src/main/cpp/src/SparkResourceAdaptorJni.cpp:619-630 | Between a pool thread and one dedicated to another task the priorities of that task and the pool's least task decide |
| `Precedence.ShuffleExample` | src/main/cpp/src/SparkResourceAdaptorJni.cpp:619-630 | A thread dedicated to task 3 and a shuffle thread on task 5, both BLOCKED: whatever the priorities, the first rolls back and a free wakes the second |
| `Deadlock.IsInDeadlock` | src/main/cpp/src/SparkResourceAdaptorJni.cpp:1786-1883 | The two-pass insert, erase and size comparison returns true exactly when some task has a dedicated thread and every such task has a stuck dedicated thread and no free pool thread; the sets and counts it returns are those of the thread map |
| `DeadlockMeaning.DeadlockedExactlyWhen` | src/main/cpp/src/SparkResourceAdaptorJni.cpp:1735-1865 | There is a deadlock if and only if there are dedicated threads and, for the task of each, some thread dedicated to it is held and so is every pool thread on it; held means waiting for a pool, BLOCKED, BUFN or reported by the JVM |
| `DeadlockMeaning.BufnTaskExactlyWhen` | src/main/cpp/src/SparkResourceAdaptorJni.cpp:1735-1757 | A task is BUFN if and only if a thread dedicated to it, or every one of at least one pool thread on it, waits for a pool, is BUFN, or is reported by the JVM and not BLOCKED |
| `DeadlockMeaning.ReportBreaksTheDeadlock` | src/main/cpp/src/SparkResourceAdaptorJni.cpp:1819-1865 | If the JVM reports a thread of every dedicated task, every pool thread is held and some thread is BLOCKED, then checking for deadlocks leaves fewer threads asleep |
| `DeadlockMeaning.OnlyTheReportTells` | src/main/cpp/src/SparkResourceAdaptorJni.cpp:1750-1754 | One thread runs and another is BLOCKED: there is a deadlock if the JVM reports the first, not without a report and not for the second, and then the BLOCKED one retries |
| `Deadlock.ScanDedicated` | src/main/cpp/src/SparkResourceAdaptorJni.cpp:1819-1831 | The first pass collects exactly the tasks with a dedicated thread that is present, BUFN or above, or stuck |
| `Deadlock.ScanPool` | src/main/cpp/src/SparkResourceAdaptorJni.cpp:1833-1863 | The second pass counts pool threads per task and removes exactly the tasks a free pool thread works for |
| `Deadlock.SizesDecide` | src/main/cpp/src/SparkResourceAdaptorJni.cpp:1864-1865 | Equal sizes and at least one task decide the declarative deadlock, in both directions |
| `Deadlock.IsAllBufn` | src/main/cpp/src/SparkResourceAdaptorJni.cpp:1992-1999 | Growing the BUFN set by pool counts and comparing sizes computes the size test on the thread map |
| `Deadlock.CountsDecideBufn` | src/main/cpp/src/SparkResourceAdaptorJni.cpp:1992-1998 | A task's BUFN pool threads reach its pool threads in number exactly when all of them are BUFN |
| `Deadlock.AllBufnMeansEveryTask` | src/main/cpp/src/SparkResourceAdaptorJni.cpp:1992-1999 | With pool tasks covered, the size test holds if and only if every task is BUFN |
| `Deadlock.SizesCompareAwakeWithStray` | src/main/cpp/src/SparkResourceAdaptorJni.cpp:1999-1999 | On every thread map the size test holds if and only if there are as many dedicated tasks that are not BUFN as BUFN tasks that only pool threads work for |
| `Deadlock.SizeTestIsWrongExactlyWhen` | src/main/cpp/src/SparkResourceAdaptorJni.cpp:1992-1999 | The size test differs from asking whether every task is BUFN if and only if there are such stray tasks and either no task is awake or exactly as many as there are strays |
| `Deadlock.StrayTaskHidesAllBufn` | src/main/cpp/src/SparkResourceAdaptorJni.cpp:1999-1999 | One failing input: everybody and every task BUFN in a deadlock, and the test says no |
| `Deadlock.StrayTaskFeignsAllBufn` | src/main/cpp/src/SparkResourceAdaptorJni.cpp:1999-2028 | The other: a dedicated task only BLOCKED, and the test says yes, so that a split is forced early |
| `DeadlockBreaking.RollBackEffect` | src/main/cpp/src/SparkResourceAdaptorJni.cpp:1941-1990 | The first half touches at most one thread: the only BLOCKED one retries once, or the unique lowest of several is told to roll back; if any thread is BLOCKED, one moves |
| `DeadlockBreaking.SplitEffect` | src/main/cpp/src/SparkResourceAdaptorJni.cpp:2001-2028 | The second half touches at most the unique highest BUFN thread and tells it to split |
| `DeadlockBreaking.RoundEffect` | src/main/cpp/src/SparkResourceAdaptorJni.cpp:1926-2030 | Victim selection of a whole round: every changed thread is the unique lowest BLOCKED or the unique highest BUFN one, ranked by the table as it stands after the scans, and its owner is signalled if it sleeps |
| `DeadlockBreaking.RoundProgress` | src/main/cpp/src/SparkResourceAdaptorJni.cpp:1926-2030 | A round never adds a BLOCKED or BUFN thread, and reduces their number if and only if there is a deadlock with a BLOCKED thread, or with a BUFN thread while the size test holds |
| `DeadlockBreaking.RoundMovesBoth` | src/main/cpp/src/SparkResourceAdaptorJni.cpp:1941-2028 | In a deadlock a round moves a BLOCKED thread if there is one, and in the same round a BUFN thread too if the size test holds |
| `DeadlockBreaking.CoveredDeadlockBreaks` | src/main/cpp/src/SparkResourceAdaptorJni.cpp:1926-2030 | With pool tasks covered, a deadlock with any sleeping thread meets that condition |
| `DeadlockBreaking.RoundsTerminate` | src/main/cpp/src/SparkResourceAdaptorJni.cpp:1926-2030 | With pool tasks covered, after as many rounds as there are sleepers the deadlock is gone or nobody sleeps |
| `Disturbances.WakeNextEffect` | src/main/cpp/src/SparkResourceAdaptorJni.cpp:1703-1724 | At most one thread is woken, the unique highest BLOCKED on that kind of memory; if there is one, some thread is woken |
| `Safety.StepKeepsInv` | src/main/cpp/src/SparkResourceAdaptorJni.cpp:671-2177 | Every lock-held section keeps the invariant on entries, brackets, sleepers, notifications and retry flags |
| `Safety.RunsKeepInv` | src/main/cpp/src/SparkResourceAdaptorJni.cpp:671-2177 | The invariant holds in every configuration of every run, over all interleavings |
| `Safety.WaitReturnsKeeps` | src/main/cpp/src/SparkResourceAdaptorJni.cpp:1353-1409 | When the wait loop is left its entry is still there, the invariant holds and an allocation going on from it finds no unexpected state |
| `AllocationBrackets.AllocatingExactlyInsideBrackets` | src/main/cpp/src/SparkResourceAdaptorJni.cpp:1536-1695 | In every reachable configuration a registered thread is in ALLOC or ALLOC_FREE exactly while a bracket of its owner is open, with the kind of the outermost one, all others being nested |
| `AllocationBrackets.WellBracketedCallersAreSafe` | src/main/cpp/src/SparkResourceAdaptorJni.cpp:1536-2110 | No run reaches the CPU/GPU mismatch or internal-error branches, and a request meets an unexpected state if and only if it is non-blocking, not injected, and from a registered thread that neither runs nor allocates |
| `AllocationBrackets.StepSparesAllocating` | src/main/cpp/src/SparkResourceAdaptorJni.cpp:2043-2177 | Any step that leaves an outermost bracket open leaves its thread registered, with the same kind and state, except that another thread's free of that kind moves it to ALLOC_FREE |
| `AllocationBrackets.FreesAreRemembered` | src/main/cpp/src/SparkResourceAdaptorJni.cpp:2135-2177 | Through an open bracket the state is ALLOC_FREE exactly when another thread freed memory of that kind since it was entered |
| `AllocationBrackets.NoMissedFree` | src/main/cpp/src/SparkResourceAdaptorJni.cpp:2062-2096 | A failed attempt leaves its thread BLOCKED only if no other thread freed memory of that kind since the attempt began; if one did, it ends RUNNING |
| `CallOutcomes.FailureOutcome` | src/main/cpp/src/SparkResourceAdaptorJni.cpp:2043-2110 | What a failed outermost attempt leaves its thread in, from its record before and the flags: RUNNING without an OOM or after a free; BUFN_THROW with an OOM on the last chance; BLOCKED with an OOM, blocking, in ALLOC and without the retry flag, unless a deadlock round moves it on; RUNNING otherwise; BLOCKED only so; nothing else of the record changes |
| `CallOutcomes.FailuresEnd` | src/main/cpp/src/SparkResourceAdaptorJni.cpp:2043-2110 | The same at every failed attempt of every run |
| `CallOutcomes.NestedFailureOutcome` | src/main/cpp/src/SparkResourceAdaptorJni.cpp:2096-2110 | Closing a nested bracket, or that of an unregistered thread, only looks for a deadlock and asks for no retry |
| `CallOutcomes.SuccessOutcome` | src/main/cpp/src/SparkResourceAdaptorJni.cpp:1644-1695 | A successful outermost attempt leaves its thread RUNNING without retry flag and kind |
| `CallOutcomes.FreedMemoryServesOne` | src/main/cpp/src/SparkResourceAdaptorJni.cpp:2135-2177 | After a free, and after a success, one thread BLOCKED on that kind of memory runs if there is any |
| `CallOutcomes.WaitOutcome` | src/main/cpp/src/SparkResourceAdaptorJni.cpp:1336-1409 | How the wait loop ends for every state it is entered in: records, counters, who sleeps, and which exception of which kind is thrown |
| `CallOutcomes.RequestOutcome` | src/main/cpp/src/SparkResourceAdaptorJni.cpp:1536-1624 | How an allocation request ends for every state, kind, blocking flag and injection |
| `CallOutcomes.WaitReturnOutcome` | src/main/cpp/src/SparkResourceAdaptorJni.cpp:1353-1409 | A returned wait goes back to sleep exactly while BLOCKED or BUFN; a request that slept begins its attempt with the kind it asked for |
| `CallOutcomes.SleepersAreRemembered` | src/main/cpp/src/SparkResourceAdaptorJni.cpp:1353-1358 | Only a call that falls asleep is remembered, with its own kind |
| `ExceptionKinds.ExceptionNamesTheFailedKind` | src/main/cpp/src/SparkResourceAdaptorJni.cpp:1295-1321 | Over every run: a retry or split exception thrown out of the wait loop after a failed attempt, before another one begins, is for the kind of memory of that attempt |
| `ExceptionKinds.StepKeepsKind` | src/main/cpp/src/SparkResourceAdaptorJni.cpp:1336-2177 | No step changes the kind of a thread that is outside attempts before and after it and keeps its entry |
| `Wakeups.NoLostWakeup` | src/main/cpp/src/SparkResourceAdaptorJni.cpp:1353-1358 | In every reachable configuration an owner in the wait loop still has its entry, and unless that is BLOCKED or BUFN a notification is pending |
| `Wakeups.BlockedNeverErased` | src/main/cpp/src/SparkResourceAdaptorJni.cpp:1489-1505 | No lock-held section erases the entry of a BLOCKED or BUFN thread |
| `Wakeups.RetryFlagOnlyWhileRunning` | src/main/cpp/src/SparkResourceAdaptorJni.cpp:1958-1983 | The retry flag is held only in RUNNING, ALLOC or ALLOC_FREE |
| `RollbackCauses.RollbackHasACause` | src/main/cpp/src/SparkResourceAdaptorJni.cpp:2062-2096 | A step moves a thread to BUFN_THROW only as the unique lowest of at least two BLOCKED threads in a deadlock, or for an OOM on an attempt made with the retry flag |
| `RollbackCauses.RollbacksHaveCauses` | src/main/cpp/src/SparkResourceAdaptorJni.cpp:1941-1990 | The same at every step of every run |
| `TotalSleep.RoundWakesExactlyWhen` | src/main/cpp/src/SparkResourceAdaptorJni.cpp:1926-2030 | With a dedicated thread registered, a round leaves some thread awake if and only if the state it looks at is not hopeless: everybody asleep, nobody BLOCKED, and a BUFN task that only pool threads work for |
| `TotalSleep.FinishWakesSomeone` | src/main/cpp/src/SparkResourceAdaptorJni.cpp:1418-1448 | Waking after a finished task leaves no total sleep, whatever the states before |
| `Bookkeeping.FinishWakesExactly` | src/main/cpp/src/SparkResourceAdaptorJni.cpp:1418-1448 | Exactly the BLOCKED threads run again if there are any, otherwise exactly those in BUFN, BUFN_THROW and BUFN_WAIT, and exactly the sleepers among them are signalled |
| `TotalSleep.LeavingSleepsExactlyWhen` | src/main/cpp/src/SparkResourceAdaptorJni.cpp:1489-1509 | A removal with its wake-up ends in a total sleep if and only if all leavers are neither RUNNING nor asleep and leave only sleepers behind, a dedicated one among them |
| `TotalSleep.StepKeepsAwake` | src/main/cpp/src/SparkResourceAdaptorJni.cpp:1336-1509 | Every step whose look for a deadlock is not hopeless and with which nobody leaves in silence keeps some thread awake while a dedicated one is registered |
| `TotalSleep.HopelessLookSleeps` | src/main/cpp/src/SparkResourceAdaptorJni.cpp:1992-2030 | After a step whose look is hopeless everybody is asleep |
| `TotalSleep.SilentLeaveSleeps` | src/main/cpp/src/SparkResourceAdaptorJni.cpp:1390-1509 | After a step with which the last threads awake leave in silence everybody else is asleep |
| `TotalSleep.SleepsExactlyWhenFatal` | src/main/cpp/src/SparkResourceAdaptorJni.cpp:1336-2110 | For every run: some thread is neither BLOCKED nor BUFN whenever a dedicated one is registered if and only if no step looks for a deadlock in a hopeless state and the last threads awake never leave in silence, both of which are told from the state before the step |
| `TotalSleep.NoTotalSleep` | src/main/cpp/src/SparkResourceAdaptorJni.cpp:1336-2110 | In particular, in every run in which pool tasks stay covered and threads leave only while RUNNING |
| `Leavers.RemoveLeaves` | src/main/cpp/src/SparkResourceAdaptorJni.cpp:1455-1509 | Who leaves by a removal, told from the state before: sleepers are told to throw, others erased, everybody else keeps state and task, and a wake-up is due exactly if a RUNNING thread leaves |
| `Leavers.TaskDoneLeaves` | src/main/cpp/src/SparkResourceAdaptorJni.cpp:854-889 | The same for a finished task: exactly its linked threads and pool threads without another task leave |
| `Bookkeeping.RemovalBooks` | src/main/cpp/src/SparkResourceAdaptorJni.cpp:1455-1509 | A removal credits both counters to exactly the tasks the thread worked for, unlinks it from the task exactly if that was its last work, and otherwise leaves it the other pool tasks |
| `Bookkeeping.DedicationOutcome` | src/main/cpp/src/SparkResourceAdaptorJni.cpp:671-732 | Every outcome of dedicating a thread, with records, counters, links and errors |
| `Bookkeeping.PoolOutcome` | src/main/cpp/src/SparkResourceAdaptorJni.cpp:764-802 | Every outcome of adding tasks to a pool thread, with records, counters and errors |
| `Bookkeeping.PoolKeepsOtherTasks` | src/main/cpp/src/SparkResourceAdaptorJni.cpp:804-834 | A pool thread that is not done with all its tasks keeps the others, its counters credited to all it had |
| `Bookkeeping.PoolCreditsBeforeLeaving` | src/main/cpp/src/SparkResourceAdaptorJni.cpp:804-834 | A pool thread that is done with all its tasks has credited all of them before it is removed |
| `Bookkeeping.ReportResetsOnlyRetries` | src/main/cpp/src/SparkResourceAdaptorJni.cpp:1006-1027 | Reporting resets exactly the retry counters of the task and its linked threads |
| `Bookkeeping.DoneTaskIsGone` | src/main/cpp/src/SparkResourceAdaptorJni.cpp:854-889 | After a task is done nobody is linked to it or works for it from a pool |
| `Bookkeeping.PoolBlockedOutcome` | src/main/cpp/src/SparkResourceAdaptorJni.cpp:1244-1258 | The pool-blocked flag of a dedicated thread is set as asked, any other thread is refused |
| `Bookkeeping.CheckpointCredits` | src/main/cpp/src/SparkResourceAdaptorJni.cpp:1263-1276 | Both counters of a thread go in full to its task, or to each task of a pool thread, and to no other |
| `RetryCounters.AnswerIsComplete` | src/main/cpp/src/SparkResourceAdaptorJni.cpp:1006-1027 | What is reported for a task plus what is stranded with threads being removed is all that its threads and the task table hold; nothing is stranded with threads that got no late injection |
| `RetryCounters.StepBalances` | src/main/cpp/src/SparkResourceAdaptorJni.cpp:1263-1276 | Each step changes a task's unreported retries by the retry exceptions it throws less what it reports and what it loses with an erased entry, across registration, re-dedication, checkpoints, removal and injection |
| `RetryCounters.RetriesAreAccountedFor` | src/main/cpp/src/SparkResourceAdaptorJni.cpp:421-443 | Over every run of dedicated threads, for every task: reported retries, those in the task table and with live threads, and those lost add up to the retry exceptions thrown |
| `RetryCounters.LossesWereInjectedLate` | src/main/cpp/src/SparkResourceAdaptorJni.cpp:1390-1396 | A step loses retries only with the entry of a thread into which a retry was injected after it had been told to throw on removal |
| `RetryCounters.RemovedExactlyWhen` | src/main/cpp/src/SparkResourceAdaptorJni.cpp:1390-1396 | A call ends with the exception for a removed thread if and only if it enters the wait loop from a registered thread told to throw on removal: a guard on the state before the call |
| `RetryCounters.RetriesAreConserved` | src/main/cpp/src/SparkResourceAdaptorJni.cpp:421-443 | Reported retries plus those held equal the retry exceptions thrown if and only if no thread told to throw on removal enters the wait loop while it still holds retries, a guard on the state before each call; and always if no retry is injected into a thread being removed |
| `RetryCounters.PoolCountsAreDropped` | src/main/cpp/src/SparkResourceAdaptorJni.cpp:873-881 | A finished task is never credited with the counters of a pool thread: they are dropped if it was the thread's last task and stay with the thread otherwise, while removing the association would credit them |
| `RetryCounters.LeavingCreditsNothing` | src/main/cpp/src/SparkResourceAdaptorJni.cpp:867-883 | The whole second loop of `task_done` credits no task, whichever threads it visits |
| `WatchdogLimit.StepCountsRetries` | src/main/cpp/src/SparkResourceAdaptorJni.cpp:1282-1321 | In every step a thread's watchdog counter grows by one with each retry or split exception it throws out of the wait loop and never otherwise, starts at 0 with a new entry, and the limit error is thrown exactly from 500 on |
| `WatchdogLimit.RegisteredOnce` | src/main/cpp/src/SparkResourceAdaptorJni.cpp:527-527 | Every entry of every run stems from one registration |
| `WatchdogLimit.AtMostTheLimit` | src/main/cpp/src/SparkResourceAdaptorJni.cpp:1282-1321 | Over every run one registration of a thread throws at most 500 retry and split exceptions out of the wait loop, and the next one due is the limit error if and only if 500 have been thrown |
| `Witnesses.UncoveredRunEndsInTotalSleep` | src/main/cpp/src/SparkResourceAdaptorJni.cpp:1992-2030 | A run of 13 steps in which threads leave only while RUNNING, with an uncovered pool task, that ends with a dedicated thread registered and everybody asleep |
| `Witnesses.EarlyLeaveEndsInTotalSleep` | src/main/cpp/src/SparkResourceAdaptorJni.cpp:1489-1505 | A covered run in which a thread leaves before it has rolled back, and which ends the same way |
| `Witnesses.NonBlockingRequestIsRefused` | src/main/cpp/src/SparkResourceAdaptorJni.cpp:1607-1621 | A run after which a non-blocking request for host memory meets an unexpected state, between a retry exception and coming back |
| `Witnesses.LateInjectionIsLost` | src/main/cpp/src/SparkResourceAdaptorJni.cpp:1565-1578 | A run that injects a retry into a thread being removed and then loses it, so that the counters are not conserved |
| `Witnesses.PoolRetryIsDropped` | src/main/cpp/src/SparkResourceAdaptorJni.cpp:867-883 | A run in which a pool thread throws a retry exception for its only task, and once that task is done the count stands nowhere |
| `Adaptor.ResourceAdaptor.ScanThreads` | src/main/cpp/src/SparkResourceAdaptorJni.cpp:1703-1718 | The loop with a running best and count finds the specified best thread, counts the selected ones and leaves the priority table as the specified scan does |
| `Adaptor.ResourceAdaptor.WakeNextHighestPriorityBlocked` | src/main/cpp/src/SparkResourceAdaptorJni.cpp:1703-1724 | New state: the specified wake-up of the highest BLOCKED thread, nothing else changed |
| `Adaptor.ResourceAdaptor.CheckAndUpdateForBufn` | src/main/cpp/src/SparkResourceAdaptorJni.cpp:1926-2030 | New state: the specified round, with the deadlock decided by the two-pass test |
| `Adaptor.ResourceAdaptor.SplitHighestBufn` | src/main/cpp/src/SparkResourceAdaptorJni.cpp:2001-2028 | New state: the specified split of the highest BUFN thread |
| `Adaptor.ResourceAdaptor.BlockThreadUntilReady` | src/main/cpp/src/SparkResourceAdaptorJni.cpp:1336-1409 | The wait loop up to where its owner sleeps, throws or goes on, deadlock check included |
| `Adaptor.ResourceAdaptor.WaitReturned` | src/main/cpp/src/SparkResourceAdaptorJni.cpp:1353-1358 | A returned wait: back to sleep while still blocked, otherwise round the loop again |
| `Adaptor.ResourceAdaptor.PreAllocCore` | src/main/cpp/src/SparkResourceAdaptorJni.cpp:1536-1624 | New state and outcome of an allocation request: nested, injected, waiting or entering its bracket |
| `Adaptor.ResourceAdaptor.PostAllocSuccessCore` | src/main/cpp/src/SparkResourceAdaptorJni.cpp:1644-1695 | New state and outcome of closing a bracket after success |
| `Adaptor.ResourceAdaptor.PostAllocFailedCore` | src/main/cpp/src/SparkResourceAdaptorJni.cpp:2043-2110 | New state and outcome of closing a bracket after a failure, deadlock check included |
| `Adaptor.ResourceAdaptor.DeallocCore` | src/main/cpp/src/SparkResourceAdaptorJni.cpp:2135-2177 | Every other thread allocating the same kind is told of the free, and the highest BLOCKED one is woken |
| `Adaptor.ResourceAdaptor.CheckpointMetrics` | src/main/cpp/src/SparkResourceAdaptorJni.cpp:1263-1276 | A thread's counters move to its task, or in full to each task of a pool thread, and are cleared |
| `Adaptor.ResourceAdaptor.GetAndResetNumRetry` | src/main/cpp/src/SparkResourceAdaptorJni.cpp:1006-1027 | The sum over linked threads and the task table is returned and exactly those counters are reset |
| `Adaptor.ResourceAdaptor.WakeUpThreadsAfterTaskFinishes` | src/main/cpp/src/SparkResourceAdaptorJni.cpp:1418-1448 | All BLOCKED threads run again or, when there is none, all BUFN, BUFN_THROW and BUFN_WAIT ones, each signalled if asleep |
| `Adaptor.ResourceAdaptor.RemoveThreadAssociation` | src/main/cpp/src/SparkResourceAdaptorJni.cpp:1455-1509 | New state of a removal: checkpointed, detached, told to throw if asleep and erased otherwise; true if a RUNNING thread was erased |
| `Adaptor.ResourceAdaptor.StartDedicatedTaskThread` | src/main/cpp/src/SparkResourceAdaptorJni.cpp:671-732 | New state and outcome of dedicating a thread to a task, taking it from another one first; refused while it is being removed or works for a pool |
| `Adaptor.ResourceAdaptor.PoolThreadWorkingOnTasks` | src/main/cpp/src/SparkResourceAdaptorJni.cpp:764-802 | New state and outcome of adding tasks to a pool thread, its counters moved to the tasks it had before; refused for dedicated, leaving or differently marked threads |
| `Adaptor.ResourceAdaptor.WaitingOnPoolStatusChanged` | src/main/cpp/src/SparkResourceAdaptorJni.cpp:1244-1258 | Only the pool-blocked flag of a dedicated thread changes; refused for any other thread |
| `Adaptor.ResourceAdaptor.PoolThreadFinishedForTasks` | src/main/cpp/src/SparkResourceAdaptorJni.cpp:804-834 | Tasks are dropped from a pool thread, which is removed when it has none left |
| `Adaptor.ResourceAdaptor.TaskDoneForAll` | src/main/cpp/src/SparkResourceAdaptorJni.cpp:854-889 | A finished task leaves all dedicated threads in ascending order and all pool threads in any order, with one wake-up at the end if a RUNNING thread was erased |
| `TaskDoneOrder.LeavingsCommute` | src/main/cpp/src/SparkResourceAdaptorJni.cpp:867-883 | Two threads may drop a finished task in either order: same state, same reports of a RUNNING thread |
| `TaskDoneOrder.OrderDoesNotMatter` | src/main/cpp/src/SparkResourceAdaptorJni.cpp:863-883 | Whatever order the unordered set of thread ids is walked in, the second loop of `task_done` gives the same result |
| `PruneSpec.PruneInStep` | src/main/cpp/src/NativeParquetJni.cpp:193-523 | On any schema whose leaves are childless, a walk that returns keeps the chunk cursor equal to the number of leaves passed, picks elements in strictly increasing order and gathers exactly the chunks of the picked leaves |
| `PruneSpec.SkipInStep` | src/main/cpp/src/NativeParquetJni.cpp:169-188 | Skipping keeps the chunk cursor equal to the number of leaves passed |
| `PruneTree.SkipPassesOneTree` | src/main/cpp/src/NativeParquetJni.cpp:169-188 | On a flattened tree `skip` passes over exactly one subtree and its leaves |
| `PruneTree.PruneFollowsTree` | src/main/cpp/src/NativeParquetJni.cpp:193-523 | Wherever a flattened tree stands in a schema, the walk fails exactly when pruning the tree fails, with the same error; otherwise it passes over exactly that tree, and gathering its picks gives the flattening of the pruned tree |
| `PruneTree.ListFollowsTree` | src/main/cpp/src/NativeParquetJni.cpp:292-390 | The same for a LIST in all its legacy layouts: repeated leaf, repeated group, two and three levels |
| `PruneTree.MapFollowsTree` | src/main/cpp/src/NativeParquetJni.cpp:395-466 | The same for a MAP with or without a value |
| `PruneTree.KidsFollowForest` | src/main/cpp/src/NativeParquetJni.cpp:227-257 | The children a struct keeps and their number are those of the pruned forest |
| `Layouts.ListWantsItsElement` | src/main/cpp/src/NativeParquetJni.cpp:307-318 | A path through a LIST group with one repeated field is wanted if and only if the element's pruner wants what starts at the field, when that is a leaf, has other than one child or is named "array" or the list's name with "_tuple"; otherwise what starts at the field's child |
| `Layouts.ListKeepsItsElement` | src/main/cpp/src/NativeParquetJni.cpp:344-389 | In the same two cases, what is kept: one or two wrappers, unchanged, around what is left of the element, or its error |
| `Layouts.OtherLists` | src/main/cpp/src/NativeParquetJni.cpp:319-343 | Lists of every other shape: a repeated leaf or a repeated group of several fields is its own element, anything else is refused with its error |
| `Layouts.TheNameDecides` | src/main/cpp/src/NativeParquetJni.cpp:361-386 | For any name of the middle group: "array" and "a_tuple" make a list "a" one of structs, every other name one of leaves |
| `Layouts.MapKeepsKeyAndValue` | src/main/cpp/src/NativeParquetJni.cpp:395-466 | A map keeps both wrappers around what is left of key and value, with the errors of these; nothing but a marked group with one repeated entry of one or two fields is taken for a map |
| `Layouts.StructPicksByName` | src/main/cpp/src/NativeParquetJni.cpp:227-257 | A struct looks its children up by normalised name and keeps of a named child what its pruner keeps, and nothing of the others |
| `PruneTree.PrunePassesOneTree` | src/main/cpp/src/NativeParquetJni.cpp:475-523 | A walk that returns advances the schema cursor by exactly one subtree and the chunk cursor by its leaves |
| `PruneShape.PruningPreservesTheTree` | src/main/cpp/src/NativeParquetJni.cpp:133-155 | For a whole footer: same errors, everything passed over, an empty result exactly when nothing is wanted, otherwise the flattening of the pruned tree; and that is the flattening of a well-formed tree if and only if no LIST or MAP wrapper on the way loses the content it declares |
| `PruneShape.TreeShape` | src/main/cpp/src/NativeParquetJni.cpp:221-263 | What is left of a tree is there exactly when something of it is wanted, and lacks declared children exactly when some wrapper loses its content |
| `PruneShape.HollowListIsNoSchema` | src/main/cpp/src/NativeParquetJni.cpp:348-389 | A list whose element struct has none of the wanted fields keeps its wrappers, and the result is no schema |
| `PruneColumns.ChunksLineUpWithLeaves` | src/main/cpp/src/NativeParquetJni.cpp:696-706 | The k-th leaf of the gathered schema is original leaf chunk_map[k] for every k, and the chunk map is strictly increasing |
| `PruneColumns.ExactlyTheWantedColumns` | src/main/cpp/src/NativeParquetJni.cpp:193-466 | The chunk map lists, in order, exactly the columns whose path the pruner wants, through structs, lists and maps |
| `SchemaWalk.Walk.Skip` | src/main/cpp/src/NativeParquetJni.cpp:169-188 | Moves both cursors as specified |
| `SchemaWalk.Walk.FilterSchemaValue` | src/main/cpp/src/NativeParquetJni.cpp:269-287 | Error or new cursors and maps as specified for a leaf |
| `SchemaWalk.Walk.FilterSchemaStruct` | src/main/cpp/src/NativeParquetJni.cpp:193-264 | Pushing a placeholder, counting kept children into it and popping it when there are none yields the specified error, cursors and maps |
| `SchemaWalk.Walk.FilterChild` | src/main/cpp/src/NativeParquetJni.cpp:229-255 | One child: walked or skipped, and counted in the placeholder exactly if it left anything |
| `SchemaWalk.Walk.FilterSchemaList` | src/main/cpp/src/NativeParquetJni.cpp:292-390 | Error or new cursors and maps as specified for a LIST |
| `SchemaWalk.Walk.FilterSchemaMap` | src/main/cpp/src/NativeParquetJni.cpp:395-466 | Error or new cursors and maps as specified for a MAP |
| `SchemaWalk.Walk.FilterSchema` | src/main/cpp/src/NativeParquetJni.cpp:475-523 | Dispatch by tag: error or new cursors and maps as specified |
| `Footer.FilterSchema` | src/main/cpp/src/NativeParquetJni.cpp:133-155 | The maps of a whole schema, or the error of the walk |
| `Footer.GatherSchema` | src/main/cpp/src/NativeParquetJni.cpp:750-758 | Gathers the kept elements with their new child counts |
| `Footer.FilterColumns` | src/main/cpp/src/NativeParquetJni.cpp:696-706 | Every row group is left with exactly the chunks of the chunk map, all else unchanged |
| `Footer.PartDecides` | src/main/cpp/src/NativeParquetJni.cpp:768-770 | A negative length keeps every row group, length 0 none, and otherwise the midpoint decides |
| `Footer.FilterFooter` | src/main/cpp/src/NativeParquetJni.cpp:748-772 | On a footer with a well-formed schema, for any pruner: the error of pruning the tree, or the flattened pruned tree with column orders and chunks again one for each leaf, each from the wanted leaf it stood for, in the row groups of the part |
| `Footer.ReadAndFilter` | src/main/cpp/src/NativeParquetJni.cpp:734-772 | The same end to end from the names, child counts and tags passed: a list of a forest with distinct sibling names filters by exactly that forest, and a list is refused if and only if it stops short of one |
| `PrunerTree.AddDepthFirst` | src/main/cpp/src/NativeParquetJni.cpp:529-573 | The loop over two stacks computes the specified tree or rejection; reading an empty stack is its own outcome |
| `PrunerTree.RepeatedNamesShareANode` | src/main/cpp/src/NativeParquetJni.cpp:548-552 | A name that comes again among siblings shares the node and tag of its first entry |
| `PrunerForest.AcceptedExactlyWhenComplete` | src/main/cpp/src/NativeParquetJni.cpp:548-572 | A list is accepted if and only if entries are needed all the way and none at its end, rejected if and only if it stops short, overrun if and only if entries follow a complete forest |
| `PrunerForest.CompleteListsAForest` | src/main/cpp/src/NativeParquetJni.cpp:548-572 | Every accepted list is the depth-first listing of a forest |
| `PrunerForest.OnlyWholeForests` | src/main/cpp/src/NativeParquetJni.cpp:529-573 | For every forest: the listing is accepted, every proper prefix rejected, every proper extension overrun |
| `PrunerForest.BuildUndoesListing` | src/main/cpp/src/NativeParquetJni.cpp:529-573 | For every forest with distinct sibling names the listing rebuilds exactly that forest with its tags |
| `RowGroups.Offset` | src/main/cpp/src/NativeParquetJni.cpp:599-607 | The lesser of the data and dictionary page offsets, as far as set |
| `RowGroups.TotalCompressedSize` | src/main/cpp/src/NativeParquetJni.cpp:646-654 | The recorded size, or the sum over the columns if it is not set |
| `RowGroups.SizesAddUp` | src/main/cpp/src/NativeParquetJni.cpp:649-654 | Sizes of columns add up, one column having its own |
| `RowGroups.FirstColumnDecides` | src/main/cpp/src/NativeParquetJni.cpp:617-634 | If the very first column has metadata, every row group starts at the first page of its first column, dictionary or data; otherwise the first starts at 4 |
| `RowGroups.MidpointHalves` | src/main/cpp/src/NativeParquetJni.cpp:656-656 | The midpoint halves a row group up to one byte, rounding toward its start for either sign of the size |
| `RowGroups.WholeGroupsGoWithTheirPart` | src/main/cpp/src/NativeParquetJni.cpp:656-659 | A row group of positive size is selected by a part that holds all of it and not by one that holds nothing of it |
| `RowGroups.GroupAcrossACut` | src/main/cpp/src/NativeParquetJni.cpp:656-659 | A group of 100 bytes at offset 4 belongs to the part up to 60 and not to the next |
| `RowGroups.FilterGroups` | src/main/cpp/src/NativeParquetJni.cpp:609-662 | The loop selects, in order, exactly the row groups whose midpoint lies in the part |
| `RowGroups.ExactlyOnePart` | src/main/cpp/src/NativeParquetJni.cpp:656-659 | For any cover of a file by adjacent parts, a row group is selected by some part if and only if its midpoint lies in the file, and never by two |
| `RowGroups.RowsAddUp` | src/main/cpp/src/NativeParquetJni.cpp:656-659 | Row counts over adjacent parts add up to those of their union |
| `RowGroups.RowsAreConserved` | src/main/cpp/src/NativeParquetJni.cpp:797-801 | Cutting up a file that holds all midpoints neither loses nor repeats a row |
| `RowGroups.CorrectedStarts` | src/main/cpp/src/NativeParquetJni.cpp:630-645 | Without column metadata and with sizes set and not negative, the first start is 4 and every other is the file offset unless that lies inside the group before, whose end it then is |
| `RowGroups.CorrectedGroupsAreApart` | src/main/cpp/src/NativeParquetJni.cpp:630-645 | Corrected row groups do not overlap and their midpoints do not decrease |
| `RowGroups.SelectionIsContiguous` | src/main/cpp/src/NativeParquetJni.cpp:609-662 | Without column metadata, a part selects a contiguous run of row groups |
| `RowGroups.StartFallsExactlyWhen` | src/main/cpp/src/NativeParquetJni.cpp:630-645 | Whatever the sizes: behind a start other than 0 a corrected start is the greater of the own offset and the end before, and it falls below the start before if and only if that is not 0, the size before is negative and the offset lies below it |
| `RowGroups.NegativeSizeGoesBackwards` | src/main/cpp/src/NativeParquetJni.cpp:630-645 | An input on which it does: a size of -2 at start 4 and a next offset of 3 |
| `RowGroups.SoundOffsetsAreKept` | src/main/cpp/src/NativeParquetJni.cpp:579-597 | Offsets that are already in order are left alone |
| `HostTable.PadSize` | src/main/cpp/src/HostTableJni.cpp:41-41 | The least multiple of 64 that is not smaller |
| `HostTable.MaskIsLeast` | src/main/cpp/src/HostTableJni.cpp:65-65 | The least multiple of 64 bytes that has a bit for each row |
| `HostTable.ColumnLayout` | src/main/cpp/src/HostTableJni.cpp:92-123 | A fixed-width column has row count times width bytes and a string column its characters; in the buffer its data comes first, its mask behind the padding, its children behind both |
| `HostTable.ColumnFillsItsSize` | src/main/cpp/src/HostTableJni.cpp:59-72 | For every supported column tree the packed bytes are exactly as many as `column_size` counts, a multiple of 64 |
| `HostTable.PackAllDecides` | src/main/cpp/src/HostTableJni.cpp:84-123 | Packing succeeds if and only if all types are known and the counted size fits; padding never runs past the end when the buffer's size and the place to start are multiples of 64 |
| `HostTable.PackAllSpills` | src/main/cpp/src/HostTableJni.cpp:100-108 | Packing known types writes padding behind the buffer if and only if some slice of the layout fits while its padding does not |
| `HostTable.ByteColumnSpills` | src/main/cpp/src/HostTableJni.cpp:100-108 | The input for every other buffer size: one column of as many bytes as the buffer holds packs if that is a multiple of 64 and writes behind the buffer otherwise |
| `HostTable.SafeBufferSizes` | src/main/cpp/src/HostTableJni.cpp:100-108 | No table at all makes padding run past the end of a buffer if and only if its size is a multiple of 64 |
| `HostTable.TableSlicesApart` | src/main/cpp/src/HostTableJni.cpp:92-123 | Data and mask slices of a packed table are pairwise disjoint, lie inside its bytes and start at multiples of 64 from its base |
| `HostTable.MaskMovesExactly` | src/main/cpp/src/HostTableJni.cpp:144-145 | The unsigned 64-bit division makes a mask move like the data if and only if the offset is a multiple of four, negative ones included |
| `HostReload.ReloadTable` | src/main/cpp/src/HostTableJni.cpp:140-170 | A packed table copied to a device buffer and relocated by any offset divisible by four loads with the same types, sizes, null counts, data and masks |
| `HostPacking.CopyToHost` | src/main/cpp/src/HostTableJni.cpp:84-90 | Copies exactly the bytes asked for, or changes nothing and reports an overflow |
| `HostPacking.CopyPadded` | src/main/cpp/src/HostTableJni.cpp:100-108 | Data, then zeros up to the padded size, with overflow and padding past the end told apart |
| `HostPacking.PackOwnParts` | src/main/cpp/src/HostTableJni.cpp:98-114 | Data and mask of one column at the specified places, or the specified failure |
| `HostPacking.BuildHostColumnView` | src/main/cpp/src/HostTableJni.cpp:92-123 | Outcome and end as specified; on success exactly the column's bytes were written and its view appended |
| `HostPacking.BuildViews` | src/main/cpp/src/HostTableJni.cpp:115-119 | The same for columns one behind another |
| `HostPacking.ToHostTable` | src/main/cpp/src/HostTableJni.cpp:125-138 | Succeeds exactly if the counted size fits, then holds exactly the table's bytes and views and leaves the rest of the buffer alone; padding runs past the end exactly if some slice fits while its padding does not |
| `ConfigText.ParsedPairsAreWritable` | src/main/cpp/profiler/nvtxw3.h:183-233 | Every key and value found is trimmed, not empty and free of line breaks; keys hold no sign and are no comments |
| `ConfigMeaning.ReadExactlyWhenSaid` | src/main/cpp/profiler/nvtxw3.h:198-229 | A pair is read off a line if and only if the line is the key, an equals sign and the value with nothing but spaces, tabs and vertical tabs between and behind, the key being no comment and free of equals signs |
| `ConfigMeaning.ParseReadsLines` | src/main/cpp/profiler/nvtxw3.h:189-196 | Parsing a text that begins with a line, ended by any of '|', line feed and carriage return, gives the pair the line says, if any, and then the pairs of the rest |
| `ConfigMeaning.EveryTextBegins` | src/main/cpp/profiler/nvtxw3.h:189-196 | Every text begins with a line in that sense |
| `ConfigText.ParseUndoesRender` | src/main/cpp/profiler/nvtxw3.h:174-234 | Parsing simplified text gives back the pairs it was written from, for every list of such pairs |
| `ConfigText.SimplifyingKeepsTheMeaning` | src/main/cpp/profiler/nvtxw3.cpp:485-528 | Simplified text parses to the same list of pairs, and simplifying twice is simplifying once |
| `ConfigText.SimplifiedLength` | src/main/cpp/profiler/nvtxw3.cpp:499-517 | Simplified text is at most one character longer, and longer exactly when nothing can be left out of the original |
| `ConfigText.EndingWithABreakIsNotTight` | src/main/cpp/profiler/nvtxw3.cpp:520-528 | A config that ends with a line break is never of that kind |
| `ConfigText.OneBarePairIsTight` | src/main/cpp/profiler/nvtxw3.cpp:520-528 | A single bare pair without a line break is, and grows from 3 to 4 characters |
| `ConfigSimplifier.ReadLine` | src/main/cpp/profiler/nvtxw3.h:191-196 | Begin, end and successor of a line, read from the buffer as it stands |
| `ConfigSimplifier.FindPair` | src/main/cpp/profiler/nvtxw3.h:198-229 | The ranges of key and value, or none, exactly as the line's text says |
| `ConfigSimplifier.ConsumeForSimplify` | src/main/cpp/profiler/nvtxw3.cpp:485-518 | Overlapping moves within the buffer write exactly the pair's line at the write position and nothing else |
| `ConfigSimplifier.SimplifyLine` | src/main/cpp/profiler/nvtxw3.cpp:485-518 | Each line keeps the unread text untouched behind the write position, or ends with the whole buffer holding the simplified text and no terminator |
| `ConfigSimplifier.SimplifyConfigHeapString` | src/main/cpp/profiler/nvtxw3.cpp:520-528 | In place, the buffer ends up holding exactly the simplified text and its terminator, which means the same, unless nothing can be left out of the text; then, and only then, the simplified text fills the buffer and its last line break stands where the terminator was |

## Left out

- `all_done`, shutting down, spilling marks and the timed wait: excluded from runs.
- Time and memory metrics, byte accounting and logging: no decision depends on them.
- Injected exceptions are a free choice of each allocation request, not counters with a skip count and an
  OOM type.
- Split-and-retry counters and the other per-task metrics: they follow the pattern of the retry counter.
- 64-bit and 32-bit overflow of counters, sizes, ids and file offsets, except where relocation wraps:
  integers are unbounded. `TaskPriority.PrioritiesFitLong` says how long priorities stay in range.
- Fair scheduling of owners: nothing is claimed about when a signalled owner runs.
- Java classes, JNI entry points and exception translation, Thrift (de)serialisation and encrypted footers.
- Schemas that are no flattened tree get the cursor and chunk theorems only, not the tree theorems.
- Pruners with duplicate sibling names are built as the source builds them, but only acceptance and the
  shared node are characterised for them.
- Footers with row groups without columns, or with fewer chunks than leaves: the source reads past the end
  of a vector.
- Sliced columns (a view with an offset) and asynchronous copies: a copy is immediate.
- Consumers of config pairs other than the simplifier, and null arguments.
- NVTXW backend loading, CUPTI and NVML, and all kernels that are only declared here.
- RowGroups.CorrectedStarts: assumes sizes set and not negative; `RowGroups.StartFallsExactlyWhen` says what
  negative sizes do.
- PruneColumns.ExactlyTheWantedColumns: says nothing about a walk that fails, whose maps are discarded.
- Adaptor.ResourceAdaptor.BlockThreadUntilReady: stops where the owner would sleep; what follows a wait is
  `WaitReturned`.
