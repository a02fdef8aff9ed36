/** The lazily filled table of task priorities (TaskPriorityJni.cpp). */
module TaskPriority {

  const MAX_LONG := 0x7fff_ffff_ffff_ffff
  const MIN_LONG := -0x8000_0000_0000_0000

  /** `next` is the priority that the next unseen attempt will get. */
  datatype Table = Table(next: int, live: map<int, int>)

  const INITIAL := Table(MAX_LONG - 1, map[])

  /** The table after a lookup of `attempt`. */
  function Fill(t: Table, attempt: int): Table
  {
    if attempt == -1 || attempt in t.live then t
    else Table(t.next - 1, t.live[attempt := t.next])
  }

  /** What a lookup of an attempt the table knows returns. */
  function Priority(t: Table, attempt: int): int
    requires attempt == -1 || attempt in t.live
  {
    if attempt == -1 then MAX_LONG else t.live[attempt]
  }

  function Forget(t: Table, attempt: int): Table
  {
    if attempt == -1 then t else t.(live := t.live - {attempt})
  }

  /** Live priorities are distinct, lie above the counter and below that of -1. */
  ghost predicate Valid(t: Table)
  {
    && t.next < MAX_LONG
    && (forall a | a in t.live :: a != -1 && t.next < t.live[a] < MAX_LONG)
    && (forall a, b | a in t.live && b in t.live && a != b :: t.live[a] != t.live[b])
  }

  ghost predicate Known(t: Table, attempt: int)
  {
    attempt == -1 || attempt in t.live
  }

  /** Nothing that was known changes its priority, and nothing known is lost. */
  ghost predicate Extends(t: Table, u: Table)
  {
    && u.next <= t.next
    && forall a | a in t.live :: a in u.live && u.live[a] == t.live[a]
  }

  /** One request to the table: a lookup, or the end of an attempt. */
  datatype Request = Lookup(attempt: int) | Done(attempt: int)

  function Serve(t: Table, r: Request): Table
  {
    match r
    case Lookup(a) => Fill(t, a)
    case Done(a) => Forget(t, a)
  }

  function ServeAll(t: Table, rs: seq<Request>): Table
  {
    if rs == [] then t else Serve(ServeAll(t, rs[..|rs| - 1]), rs[|rs| - 1])
  }

  /** After any requests, live priorities are distinct and all below that of -1. */
  lemma {:induction false} TableStaysValid(rs: seq<Request>)
    ensures Valid(ServeAll(INITIAL, rs))
    ensures INITIAL.next - |rs| <= ServeAll(INITIAL, rs).next <= INITIAL.next
  {
    if rs != [] {
      TableStaysValid(rs[..|rs| - 1]);
    }
  }

  /** Fewer than 2^64 - 1 requests cannot exhaust the counter: every priority handed out is a `long`. */
  lemma PrioritiesFitLong(rs: seq<Request>, a: int)
    requires |rs| < 0x1_0000_0000_0000_0000 - 1
    requires Known(ServeAll(INITIAL, rs), a)
    ensures MIN_LONG <= Priority(ServeAll(INITIAL, rs), a) <= MAX_LONG
  {
    TableStaysValid(rs);
  }

  /** A live attempt keeps its priority until it is reported done. */
  lemma {:induction false} PriorityIsStable(t: Table, rs: seq<Request>, a: int)
    requires Valid(t) && Known(t, a)
    requires a == -1 || Done(a) !in rs
    ensures Known(ServeAll(t, rs), a) && Priority(ServeAll(t, rs), a) == Priority(t, a)
  {
    if rs != [] {
      PriorityIsStable(t, rs[..|rs| - 1], a);
    }
  }

  lemma {:induction false} CounterNeverRises(t: Table, rs: seq<Request>)
    requires Valid(t)
    ensures Valid(ServeAll(t, rs)) && ServeAll(t, rs).next <= t.next
  {
    if rs != [] {
      CounterNeverRises(t, rs[..|rs| - 1]);
    }
  }

  /** Earlier first requests rank higher: an attempt already live outranks any attempt first seen later. */
  lemma EarlierOutranksLater(t: Table, rs: seq<Request>, a: int, b: int)
    requires Valid(t) && Known(t, a) && !Known(t, b)
    requires a == -1 || Done(a) !in rs
    requires Known(ServeAll(t, rs), b)
    ensures Known(ServeAll(t, rs), a)
    ensures Priority(ServeAll(t, rs), b) < Priority(ServeAll(t, rs), a)
  {
    PriorityIsStable(t, rs, a);
    CounterNeverRises(t, rs);
    NewcomersRankBelow(t, rs, b);
  }

  lemma {:induction false} NewcomersRankBelow(t: Table, rs: seq<Request>, b: int)
    requires Valid(t) && !Known(t, b) && Known(ServeAll(t, rs), b)
    ensures Priority(ServeAll(t, rs), b) <= t.next
  {
    var before := rs[..|rs| - 1];
    CounterNeverRises(t, before);
    if Known(ServeAll(t, before), b) {
      NewcomersRankBelow(t, before, b);
    }
  }

  /** An attempt that was reported done has no priority; if it is seen again, it ranks below all that stayed live. */
  lemma DoneLosesItsRank(t: Table, rs: seq<Request>, a: int, b: int)
    requires Valid(t) && a != -1 && Known(t, b) && b != a && (b == -1 || Done(b) !in rs)
    ensures !Known(Serve(t, Done(a)), a)
    ensures
      var later := ServeAll(Serve(t, Done(a)), rs);
      Known(later, a) ==> Known(later, b) && Priority(later, a) < Priority(later, b)
  {
    var u := Serve(t, Done(a));
    if Known(ServeAll(u, rs), a) {
      EarlierOutranksLater(u, rs, b, a);
    }
  }

  /** The static counter and map, updated under their own mutex. */
  class PriorityTable {
    var next: int
    var live: map<int, int>

    ghost function Value(): Table reads this { Table(next, live) }

    constructor ()
      ensures Value() == INITIAL && Valid(Value())
    {
      next := MAX_LONG - 1;
      live := map[];
    }

    method GetTaskPriority(attempt: int) returns (p: int)
      modifies this
      ensures Value() == Fill(old(Value()), attempt)
      ensures Known(Value(), attempt) && p == Priority(Value(), attempt)
      ensures Extends(old(Value()), Value())
      ensures old(Valid(Value())) ==> Valid(Value())
    {
      if attempt == -1 {
        return MAX_LONG;
      }
      if attempt in live {
        return live[attempt];
      }
      p := next;
      next := next - 1;
      live := live[attempt := p];
    }

    method TaskDone(attempt: int)
      modifies this
      ensures Value() == Forget(old(Value()), attempt)
      ensures old(Valid(Value())) ==> Valid(Value())
    {
      if attempt != -1 {
        live := live - {attempt};
      }
    }
  }
}
