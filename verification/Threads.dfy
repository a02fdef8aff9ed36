/** Thread records of the resource adaptor and the order the scheduler ranks them by. */
module Threads {
  import opened Collections
  import opened TaskPriority

  datatype ThreadState =
    | Running | Alloc | AllocFree | Blocked | BufnThrow | BufnWait | Bufn | SplitThrow | RemoveThrow

  predicate IsBlocked(s: ThreadState) { s == Blocked || s == Bufn }

  predicate InAlloc(s: ThreadState) { s == Alloc || s == AllocFree }

  datatype Metrics = Metrics(retryThrows: int, splitThrows: int)

  const NO_METRICS := Metrics(0, 0)

  function AddMetrics(a: Metrics, b: Metrics): Metrics
  {
    Metrics(a.retryThrows + b.retryThrows, a.splitThrows + b.splitThrows)
  }

  /** A registered thread. A dedicated thread has a task id; a pool thread has -1 and a set of tasks. */
  datatype Thread = Thread(
    state: ThreadState,
    taskId: int,
    isForShuffle: bool,
    poolTasks: set<int>,
    isCpuAlloc: bool,
    poolBlocked: bool,
    retryBeforeBufn: bool,
    timesRetried: nat,
    metrics: Metrics)

  function FreshThread(taskId: int, isForShuffle: bool): Thread
  {
    Thread(Running, taskId, isForShuffle, {}, false, false, false, 0, NO_METRICS)
  }

  type ThreadMap = map<int, Thread>

  /** The task whose priority a thread inherits. */
  function PriorityTask(th: Thread): int
  {
    if th.taskId < 0 && !th.isForShuffle then
      if th.poolTasks == {} then -1 else MinOf(th.poolTasks)
    else th.taskId
  }

  /** Task priority first, thread id as the tie breaker. */
  datatype Rank = Rank(task: int, thread: int)

  predicate Below(a: Rank, b: Rank)
  {
    a.task < b.task || (a.task == b.task && a.thread < b.thread)
  }

  function RankOf(t: Table, id: int, th: Thread): Rank
    requires Known(t, PriorityTask(th))
  {
    Rank(Priority(t, PriorityTask(th)), id)
  }

  /** Which threads a scan looks at. */
  datatype Scan = AnyBlocked | BlockedFor(cpu: bool) | AnyBufn

  predicate Selected(k: Scan, th: Thread)
  {
    match k
    case AnyBlocked => th.state == Blocked
    case BlockedFor(cpu) => th.state == Blocked && th.isCpuAlloc == cpu
    case AnyBufn => th.state == Bufn
  }

  /** The table after a scan has asked, in ascending order of id, for the priority of every selected thread. */
  ghost function ScanFill(t: Table, threads: ThreadMap, ids: set<int>, k: Scan): (u: Table)
    requires ids <= threads.Keys
    decreases ids
  {
    if ids == {} then t else
      var id := MinOf(ids);
      ScanFill(FillFor(t, threads[id], k), threads, ids - {id}, k)
  }

  function FillFor(t: Table, th: Thread, k: Scan): Table
  {
    if Selected(k, th) then Fill(t, PriorityTask(th)) else t
  }

  lemma {:induction false} ScanFillRanks(t: Table, threads: ThreadMap, ids: set<int>, k: Scan)
    requires ids <= threads.Keys
    ensures Extends(t, ScanFill(t, threads, ids, k))
    ensures Valid(t) ==> Valid(ScanFill(t, threads, ids, k))
    ensures forall i | i in ids && Selected(k, threads[i]) ::
      Known(ScanFill(t, threads, ids, k), PriorityTask(threads[i]))
    decreases ids
  {
    if ids != {} {
      var id := MinOf(ids);
      ScanFillRanks(FillFor(t, threads[id], k), threads, ids - {id}, k);
    }
  }

  /** A whole scan only adds to the table, and ranks every thread it selects. */
  ghost function FullScan(t: Table, threads: ThreadMap, k: Scan): (u: Table)
    ensures Extends(t, u)
    ensures Valid(t) ==> Valid(u)
    ensures Ranked(u, threads, k)
  {
    ScanFillRanks(t, threads, threads.Keys, k);
    ScanFill(t, threads, threads.Keys, k)
  }

  /** The table knows the priority of every selected thread. */
  ghost predicate Ranked(t: Table, threads: ThreadMap, k: Scan)
  {
    forall i | i in threads && Selected(k, threads[i]) :: Known(t, PriorityTask(threads[i]))
  }

  /** `a` comes strictly before `b`: below it when looking for the lowest, above it otherwise. */
  ghost predicate Ahead(t: Table, threads: ThreadMap, a: int, b: int, lowest: bool)
    requires a in threads && Known(t, PriorityTask(threads[a]))
    requires b in threads && Known(t, PriorityTask(threads[b]))
  {
    var ra, rb := RankOf(t, a, threads[a]), RankOf(t, b, threads[b]);
    if lowest then Below(ra, rb) else Below(rb, ra)
  }

  /** `id` is selected and strictly ahead of every other selected thread among `ids`. */
  ghost predicate IsBest(t: Table, threads: ThreadMap, ids: set<int>, k: Scan, lowest: bool, id: int)
    requires Ranked(t, threads, k)
  {
    && id in ids && id in threads && Selected(k, threads[id])
    && forall o | o in ids && o in threads && Selected(k, threads[o]) && o != id ::
         Ahead(t, threads, id, o, lowest)
  }

  lemma {:induction false} BestExists(t: Table, threads: ThreadMap, ids: set<int>, k: Scan, lowest: bool, some: int)
    requires Ranked(t, threads, k)
    requires some in ids && some in threads && Selected(k, threads[some])
    ensures exists b :: IsBest(t, threads, ids, k, lowest, b)
    decreases |ids|
  {
    var rest := ids - {some};
    if other :| other in rest && other in threads && Selected(k, threads[other]) {
      BestExists(t, threads, rest, k, lowest, other);
      var b :| IsBest(t, threads, rest, k, lowest, b);
      var best := if Ahead(t, threads, b, some, lowest) then b else some;
      assert IsBest(t, threads, ids, k, lowest, best);
    } else {
      assert IsBest(t, threads, ids, k, lowest, some);
    }
  }

  /** The selected thread with the lowest (or highest) rank, if any thread is selected. */
  ghost function Best(t: Table, threads: ThreadMap, k: Scan, lowest: bool): (r: Option<int>)
    requires Ranked(t, threads, k)
    ensures r.None? <==> forall i | i in threads :: !Selected(k, threads[i])
    ensures r.Some? ==> IsBest(t, threads, threads.Keys, k, lowest, r.value)
  {
    if i :| i in threads && Selected(k, threads[i]) then
      BestExists(t, threads, threads.Keys, k, lowest, i);
      var b :| IsBest(t, threads, threads.Keys, k, lowest, b);
      Some(b)
    else None
  }

  /** Victims are unique: two threads cannot both be strictly ahead of all others. */
  lemma BestIsUnique(t: Table, threads: ThreadMap, k: Scan, lowest: bool, a: int, b: int)
    requires Ranked(t, threads, k)
    requires IsBest(t, threads, threads.Keys, k, lowest, a)
    requires IsBest(t, threads, threads.Keys, k, lowest, b)
    ensures a == b
  {
  }
}
