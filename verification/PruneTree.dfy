/**
  What pruning a footer means on schema trees, and the proof that the flat walk computes it.
*/
module PruneTree {
  import opened Collections
  import opened PruneSpec

  datatype Tree = Node(elem: Element, kids: seq<Tree>)

  /** Declared child counts are the real ones, and leaves have no children. */
  ghost predicate WellFormed(t: Tree)
  {
    && NumChildren(t.elem) == |t.kids|
    && (t.elem.isLeaf ==> t.kids == [])
    && (forall k | 0 <= k < |t.kids| :: WellFormed(t.kids[k]))
  }

  ghost predicate AllWellFormed(ts: seq<Tree>)
  {
    forall k | 0 <= k < |ts| :: WellFormed(ts[k])
  }

  /** Depth-first flattening, parents in front. */
  function Flatten(t: Tree): (r: seq<Element>)
    ensures |r| > 0 && r[0] == t.elem
    decreases t, 1
  {
    [t.elem] + FlattenAll(t.kids)
  }

  function FlattenAll(ts: seq<Tree>): seq<Element>
    decreases ts, 0
  {
    if ts == [] then [] else Flatten(ts[0]) + FlattenAll(ts[1..])
  }

  function Leaves(s: seq<Element>): nat { LeafRank(s, |s|) }

  /** The element with its child count set, as far as the count is present at all. */
  function Recount(e: Element, n: int): Element
  {
    if e.numChildren.Some? then e.(numChildren := Some(n)) else e
  }

  // ----- pruning on trees -----

  /** The children a struct keeps: those wanted by name, each pruned, in the schema's order. */
  function PruneForest(p: Pruner, norm: string -> string, kids: seq<Tree>): Result<seq<Tree>>
    requires AllWellFormed(kids)
    decreases p, 0, |kids|
  {
    if kids == [] then Ok([])
    else
      var name := norm(kids[0].elem.name);
      if name !in p.children then PruneForest(p, norm, kids[1..])
      else
        match Pruned(p.children[name], norm, kids[0])
        case Err(e) => Err(e)
        case Ok(kid) =>
          (match PruneForest(p, norm, kids[1..])
           case Err(e) => Err(e)
           case Ok(rest) => Ok(kid + rest))
  }

  /** A wrapper around whatever is left of its content. */
  function Wrapped(e: Element, n: int, r: Result<seq<Tree>>): Result<seq<Tree>>
  {
    match r
    case Err(error) => Err(error)
    case Ok(kids) => Ok([Node(Recount(e, n), kids)])
  }

  function PrunedLeaf(t: Tree): Result<seq<Tree>>
    requires WellFormed(t)
  {
    if t.elem.isLeaf then Ok([t]) else Err(GroupInsteadOfLeaf)
  }

  function PrunedStruct(p: Pruner, norm: string -> string, t: Tree): Result<seq<Tree>>
    requires WellFormed(t)
    decreases p, 1
  {
    if t.elem.isLeaf then Err(LeafInsteadOfStruct)
    else
      match PruneForest(p, norm, t.kids)
      case Err(e) => Err(e)
      case Ok(kids) => if kids == [] then Ok([]) else Ok([Node(Recount(t.elem, |kids|), kids)])
  }

  function PrunedList(p: Pruner, norm: string -> string, t: Tree): Result<seq<Tree>>
    requires WellFormed(t)
    decreases p, 1
  {
    if "element" !in p.children then Err(MissingChild)
    else if t.elem.isLeaf then if t.elem.isRepeated then Ok([t]) else Err(ListNotRepeated)
    else if |t.kids| > 1 then
      if t.elem.isRepeated then Pruned(p.children["element"], norm, t) else Err(ListNotRepeated)
    else if |t.kids| == 0 then Err(ListGroupNotStandard)
    else
      var field := t.kids[0];
      assert WellFormed(field);
      if !field.elem.isRepeated then Err(ListChildNotRepeated)
      else if IsThreeLevel(t.elem, field.elem) then
        Wrapped(t.elem, 1, Wrapped(field.elem, 1, Pruned(p.children["element"], norm, field.kids[0])))
      else Wrapped(t.elem, 1, Pruned(p.children["element"], norm, field))
  }

  function PrunedMap(p: Pruner, norm: string -> string, t: Tree): Result<seq<Tree>>
    requires WellFormed(t)
    decreases p, 1
  {
    if "key" !in p.children || "value" !in p.children then Err(MissingChild)
    else if t.elem.isLeaf then Err(ValueInsteadOfMap)
    else if !t.elem.isMap then Err(NotAMap)
    else if |t.kids| != 1 then Err(MapGroupNotStandard)
    else
      var entry := t.kids[0];
      assert WellFormed(entry);
      if !entry.elem.isRepeated then Err(MapChildNotRepeated)
      else if |entry.kids| != 1 && |entry.kids| != 2 then Err(MapChildCount)
      else
        match Pruned(p.children["key"], norm, entry.kids[0])
        case Err(e) => Err(e)
        case Ok(key) =>
          if |entry.kids| == 1 then Ok([Node(Recount(t.elem, 1), [Node(Recount(entry.elem, 1), key)])])
          else
            match Pruned(p.children["value"], norm, entry.kids[1])
            case Err(e) => Err(e)
            case Ok(value) => Ok([Node(Recount(t.elem, 1), [Node(Recount(entry.elem, 2), key + value)])])
  }

  /** What is left of a tree: nothing or one tree. */
  function Pruned(p: Pruner, norm: string -> string, t: Tree): (r: Result<seq<Tree>>)
    requires WellFormed(t)
    ensures r.Ok? ==> |r.value| <= 1
    decreases p, 2
  {
    match p.tag
    case Value => PrunedLeaf(t)
    case Struct => PrunedStruct(p, norm, t)
    case List => PrunedList(p, norm, t)
    case Map => PrunedMap(p, norm, t)
  }

  // ----- the gather step -----

  /** The schema the footer is left with: the picked elements with their new child counts. */
  function Gather(schema: seq<Element>, picks: seq<Pick>): (r: seq<Element>)
    requires forall k | 0 <= k < |picks| :: picks[k].index < |schema|
    ensures |r| == |picks|
  {
    if picks == [] then [] else [Recount(schema[picks[0].index], picks[0].count)] + Gather(schema, picks[1..])
  }

  ghost predicate InRange(schema: seq<Element>, picks: seq<Pick>)
  {
    forall k | 0 <= k < |picks| :: picks[k].index < |schema|
  }

  lemma {:induction false} GatherConcat(schema: seq<Element>, a: seq<Pick>, b: seq<Pick>)
    requires InRange(schema, a) && InRange(schema, b)
    ensures InRange(schema, a + b)
    ensures Gather(schema, a + b) == Gather(schema, a) + Gather(schema, b)
  {
    if a == [] {
      assert a + b == b;
    } else {
      hide Recount;
      GatherConcat(schema, a[1..], b);
      var c := a + b;
      assert c[0] == a[0] && c[1..] == a[1..] + b;
      Regroup([Recount(schema[a[0].index], a[0].count)], Gather(schema, a[1..]), Gather(schema, b));
    }
  }

  // ----- flattened trees inside a schema -----

  lemma {:induction false} HoldsTree(schema: seq<Element>, at: nat, t: Tree)
    requires Holds(schema, at, Flatten(t))
    ensures at < |schema| && schema[at] == t.elem
    ensures Holds(schema, at + 1, FlattenAll(t.kids))
  {
    HoldsSplit(schema, at, [t.elem], FlattenAll(t.kids));
    assert schema[at] == schema[at..at + 1][0];
  }

  lemma {:induction false} HoldsForest(schema: seq<Element>, at: nat, ts: seq<Tree>)
    requires ts != [] && Holds(schema, at, FlattenAll(ts))
    ensures Holds(schema, at, Flatten(ts[0])) && Holds(schema, at + |Flatten(ts[0])|, FlattenAll(ts[1..]))
  {
    HoldsSplit(schema, at, Flatten(ts[0]), FlattenAll(ts[1..]));
  }

  lemma {:induction false} LeavesConcat(a: seq<Element>, b: seq<Element>)
    ensures Leaves(a + b) == Leaves(a) + Leaves(b)
    decreases |b|
  {
    if b == [] {
      assert a + b == a;
    } else {
      var n := |b| - 1;
      LeavesConcat(a, b[..n]);
      assert (a + b)[..|a| + n] == a + b[..n];
      LeafRankPrefix(a + b, |a| + n);
      LeafRankPrefix(b, n);
    }
  }

  lemma {:induction false} LeafRankPrefix(s: seq<Element>, n: nat)
    requires n <= |s|
    ensures LeafRank(s, n) == Leaves(s[..n])
    decreases n
  {
    if n > 0 {
      LeafRankPrefix(s, n - 1);
      LeafRankPrefix(s[..n], n - 1);
      assert s[..n][..n - 1] == s[..n - 1];
    }
  }

  lemma {:induction false} LeavesOfOne(e: Element)
    ensures Leaves([e]) == if e.isLeaf then 1 else 0
  {
    assert LeafRank([e], 1) == LeafRank([e], 0) + if e.isLeaf then 1 else 0;
  }

  lemma {:induction false} FlattenAllConcat(a: seq<Tree>, b: seq<Tree>)
    ensures FlattenAll(a + b) == FlattenAll(a) + FlattenAll(b)
  {
    hide Flatten;
    if a == [] {
      assert a + b == b;
    } else {
      FlattenAllConcat(a[1..], b);
      var c := a + b;
      assert c[0] == a[0] && c[1..] == a[1..] + b;
      Regroup(Flatten(a[0]), FlattenAll(a[1..]), FlattenAll(b));
    }
  }

  /** A forest without its first element is again a forest. */
  lemma {:induction false} ForestHead(ts: seq<Tree>)
    requires ts != []
    ensures FlattenAll(ts) == [ts[0].elem] + FlattenAll(ts[0].kids + ts[1..])
  {
    FlattenAllConcat(ts[0].kids, ts[1..]);
    Regroup([ts[0].elem], FlattenAll(ts[0].kids), FlattenAll(ts[1..]));
  }

  // ----- skipping -----

  /** Skipping a forest with some more trees pending passes over exactly that forest. */
  lemma {:induction false} SkipForest(schema: seq<Element>, at: nat, chunk: nat, ts: seq<Tree>, more: nat)
    requires AllWellFormed(ts) && Holds(schema, at, FlattenAll(ts))
    ensures Skip(schema, at, chunk, |ts| + more)
         == Skip(schema, at + |FlattenAll(ts)|, chunk + Leaves(FlattenAll(ts)), more)
    decreases |FlattenAll(ts)|
  {
    hide FlattenAll, LeafRank;
    if ts == [] {
      EmptyForest();
    } else {
      var e, inner := ts[0].elem, ts[0].kids + ts[1..];
      ForestHead(ts);
      HoldsSplit(schema, at, [e], FlattenAll(inner));
      assert schema[at] == schema[at..at + 1][0];
      LeavesConcat([e], FlattenAll(inner));
      LeavesOfOne(e);
      SkipForest(schema, at + 1, chunk + Leaves([e]), inner, more);
    }
  }

  lemma {:induction false} EmptyForest()
    ensures FlattenAll([]) == [] && Leaves([]) == 0
  {
  }

  lemma {:induction false} FlattenOne(t: Tree)
    ensures FlattenAll([t]) == Flatten(t)
  {
  }

  /** `skip` passes over exactly one subtree and its leaves. */
  lemma {:induction false} SkipPassesOneTree(schema: seq<Element>, at: nat, chunk: nat, t: Tree)
    requires WellFormed(t) && Holds(schema, at, Flatten(t))
    ensures Skip(schema, at, chunk, 1) == (at + |Flatten(t)|, chunk + Leaves(Flatten(t)))
  {
    FlattenOne(t);
    SkipForest(schema, at, chunk, [t], 0);
  }

  // ----- the walk computes the pruned tree -----

  /** A walk that started at a part of the schema passed over it and picked what is left of it. */
  ghost predicate Walked(schema: seq<Element>, at: nat, chunk: nat, part: seq<Element>, piece: Piece, kept: seq<Tree>)
  {
    && piece.at == at + |part|
    && piece.chunk == chunk + Leaves(part)
    && InRange(schema, piece.picks)
    && Gather(schema, piece.picks) == FlattenAll(kept)
  }

  ghost predicate SameOutcome(schema: seq<Element>, at: nat, chunk: nat, part: seq<Element>,
                              r: Result<Piece>, kept: Result<seq<Tree>>)
  {
    match (r, kept)
    case (Err(e), Err(f)) => e == f
    case (Ok(piece), Ok(trees)) => Walked(schema, at, chunk, part, piece, trees)
    case _ => false
  }

  /** A struct counts a child exactly when something is left of it. */
  lemma {:induction false} GrownCounts(schema: seq<Element>, at: nat, chunk: nat, part: seq<Element>, piece: Piece,
                                       kept: seq<Tree>)
    requires Walked(schema, at, chunk, part, piece, kept) && |kept| <= 1
    ensures Grown(piece) == |kept| && piece.at == at + |part|
  {
  }

  lemma {:induction false} WalkedThen(schema: seq<Element>, at: nat, chunk: nat, a: seq<Element>, b: seq<Element>,
                   first: Piece, second: Piece, kept1: seq<Tree>, kept2: seq<Tree>)
    requires Walked(schema, at, chunk, a, first, kept1)
    requires Walked(schema, first.at, first.chunk, b, second, kept2)
    ensures Walked(schema, at, chunk, a + b, Then(first, second), kept1 + kept2)
  {
    LeavesConcat(a, b);
    GatherConcat(schema, first.picks, second.picks);
    FlattenAllConcat(kept1, kept2);
  }

  lemma {:induction false} WalkedNothing(schema: seq<Element>, at: nat, chunk: nat)
    ensures Walked(schema, at, chunk, [], Piece(at, chunk, [], []), [])
  {
  }

  lemma {:induction false} WalkedPast(schema: seq<Element>, at: nat, chunk: nat, a: seq<Element>, b: seq<Element>,
                                      piece: Piece, kept: seq<Tree>)
    requires Walked(schema, at + |a|, chunk + Leaves(a), b, piece, kept)
    ensures Walked(schema, at, chunk, a + b, piece, kept)
  {
    LeavesConcat(a, b);
  }

  /** Keeping a non-leaf in front of its content. */
  lemma {:induction false} WalkedWrap(schema: seq<Element>, at: nat, chunk: nat, n: int, part: seq<Element>,
                                      piece: Piece, kept: seq<Tree>)
    requires at < |schema| && !schema[at].isLeaf
    requires Walked(schema, at + 1, chunk, part, piece, kept)
    ensures Walked(schema, at, chunk, [schema[at]] + part,
                   piece.(picks := [Pick(at, n)] + piece.picks), [Node(Recount(schema[at], n), kept)])
  {
    LeavesConcat([schema[at]], part);
    LeavesOfOne(schema[at]);
    GatherConcat(schema, [Pick(at, n)], piece.picks);
    FlattenOne(Node(Recount(schema[at], n), kept));
    assert [Pick(at, n)][1..] == [];
    assert Gather(schema, [Pick(at, n)]) == [Recount(schema[at], n)];
  }

  lemma {:induction false} KidsFollowForest(p: Pruner, norm: string -> string, schema: seq<Element>, at: nat,
                                            chunk: nat, kids: seq<Tree>)
    requires AllWellFormed(kids) && Holds(schema, at, FlattenAll(kids))
    ensures
      match (PruneKids(p, norm, schema, at, chunk, |kids|), PruneForest(p, norm, kids))
      case (Err(e), Err(f)) => e == f
      case (Ok((piece, n)), Ok(kept)) => n == |kept| && Walked(schema, at, chunk, FlattenAll(kids), piece, kept)
      case _ => false
    decreases p, 0, |kids|
  {
    hide Flatten, Walked, Gather, LeafRank, Prune, Pruned, Skip, WellFormed, Holds;
    if kids == [] {
      WalkedNothing(schema, at, chunk);
    } else {
      var t, rest := kids[0], kids[1..];
      HoldsForest(schema, at, kids);
      HoldsTree(schema, at, t);
      var name := norm(t.elem.name);
      if name in p.children {
        PruneFollowsTree(p.children[name], norm, schema, at, chunk, t);
        var kid := Prune(p.children[name], norm, schema, at, chunk);
        if kid.Ok? {
          var kept := Pruned(p.children[name], norm, t).value;
          GrownCounts(schema, at, chunk, Flatten(t), kid.value, kept);
          KidsFollowForest(p, norm, schema, kid.value.at, kid.value.chunk, rest);
          var more := PruneKids(p, norm, schema, kid.value.at, kid.value.chunk, |rest|);
          if more.Ok? {
            WalkedThen(schema, at, chunk, Flatten(t), FlattenAll(rest), kid.value, more.value.0,
                       kept, PruneForest(p, norm, rest).value);
          }
        }
      } else {
        SkipPassesOneTree(schema, at, chunk, t);
        KidsFollowForest(p, norm, schema, at + |Flatten(t)|, chunk + Leaves(Flatten(t)), rest);
        var more := PruneKids(p, norm, schema, at + |Flatten(t)|, chunk + Leaves(Flatten(t)), |rest|);
        if more.Ok? {
          WalkedPast(schema, at, chunk, Flatten(t), FlattenAll(rest), more.value.0, PruneForest(p, norm, rest).value);
        }
      }
    }
  }

  lemma {:induction false} StructFollowsTree(p: Pruner, norm: string -> string, schema: seq<Element>, at: nat,
                                             chunk: nat, t: Tree)
    requires WellFormed(t) && Holds(schema, at, Flatten(t))
    ensures SameOutcome(schema, at, chunk, Flatten(t), PruneStruct(p, norm, schema, at, chunk),
                        PrunedStruct(p, norm, t))
    decreases p, 1
  {
    HoldsTree(schema, at, t);
    if !t.elem.isLeaf {
      KidsFollowForest(p, norm, schema, at + 1, chunk, t.kids);
      var r := PruneKids(p, norm, schema, at + 1, chunk, |t.kids|);
      if r.Ok? {
        var kept := PruneForest(p, norm, t.kids).value;
        WalkedWrap(schema, at, chunk, |kept|, FlattenAll(t.kids), r.value.0, kept);
        LeavesConcat([t.elem], FlattenAll(t.kids));
        LeavesOfOne(t.elem);
      }
    }
  }

  /** A subtree under a wrapper: where it is, and that it makes up all of the wrapper. */
  lemma {:induction false} OnlyKid(schema: seq<Element>, at: nat, t: Tree)
    requires Holds(schema, at, Flatten(t)) && |t.kids| == 1
    ensures Holds(schema, at + 1, Flatten(t.kids[0]))
    ensures Flatten(t) == [t.elem] + Flatten(t.kids[0])
  {
    HoldsTree(schema, at, t);
    FlattenOne(t.kids[0]);
    assert t.kids == [t.kids[0]];
  }

  lemma {:induction false} WrapOutcome(schema: seq<Element>, at: nat, chunk: nat, n: int, part: seq<Element>,
                    r: Result<Piece>, kept: Result<seq<Tree>>)
    requires at < |schema| && !schema[at].isLeaf
    requires SameOutcome(schema, at + 1, chunk, part, r, kept)
    ensures SameOutcome(schema, at, chunk, [schema[at]] + part, Under([Pick(at, n)], r), Wrapped(schema[at], n, kept))
  {
    if r.Ok? {
      WalkedWrap(schema, at, chunk, n, part, r.value, kept.value);
    }
  }

  lemma {:induction false} UnderTwice(a: Pick, b: Pick, r: Result<Piece>)
    ensures Under([a], Under([b], r)) == Under([a, b], r)
  {
    if r.Ok? {
      assert [a] + ([b] + r.value.picks) == [a, b] + r.value.picks;
    }
  }

  lemma {:induction false} ListFollowsTree(p: Pruner, norm: string -> string, schema: seq<Element>, at: nat,
                                           chunk: nat, t: Tree)
    requires WellFormed(t) && Holds(schema, at, Flatten(t))
    ensures SameOutcome(schema, at, chunk, Flatten(t), PruneList(p, norm, schema, at, chunk), PrunedList(p, norm, t))
    decreases p, 1
  {
    HoldsTree(schema, at, t);
    if "element" in p.children {
      var element := p.children["element"];
      if t.elem.isLeaf {
        LeafFollowsTree(schema, at, chunk, t);
      } else if |t.kids| > 1 {
        PruneFollowsTree(element, norm, schema, at, chunk, t);
      } else if |t.kids| == 1 {
        var field := t.kids[0];
        OnlyKid(schema, at, t);
        HoldsTree(schema, at + 1, field);
        if IsThreeLevel(t.elem, field.elem) {
          OnlyKid(schema, at + 1, field);
          PruneFollowsTree(element, norm, schema, at + 2, chunk, field.kids[0]);
          var r, kept := Prune(element, norm, schema, at + 2, chunk), Pruned(element, norm, field.kids[0]);
          WrapOutcome(schema, at + 1, chunk, 1, Flatten(field.kids[0]), r, kept);
          WrapOutcome(schema, at, chunk, 1, Flatten(field), Under([Pick(at + 1, 1)], r), Wrapped(field.elem, 1, kept));
          UnderTwice(Pick(at, 1), Pick(at + 1, 1), r);
        } else {
          PruneFollowsTree(element, norm, schema, at + 1, chunk, field);
          WrapOutcome(schema, at, chunk, 1, Flatten(field),
                      Prune(element, norm, schema, at + 1, chunk), Pruned(element, norm, field));
        }
      }
    }
  }

  lemma {:induction false} LeafFollowsTree(schema: seq<Element>, at: nat, chunk: nat, t: Tree)
    requires WellFormed(t) && Holds(schema, at, Flatten(t))
    ensures SameOutcome(schema, at, chunk, Flatten(t), PruneValue(schema, at, chunk), PrunedLeaf(t))
  {
    HoldsTree(schema, at, t);
    if t.elem.isLeaf {
      var picks := [Pick(at, 0)];
      assert picks[1..] == [];
      assert Gather(schema, picks) == [t.elem];
      FlattenOne(t);
      LeavesOfOne(t.elem);
    }
  }

  /** The content of a map's entries: the key, and the value if there is one. */
  function EntryWalk(p: Pruner, norm: string -> string, schema: seq<Element>, at: nat, chunk: nat,
                     n: nat): Result<Piece>
    requires "key" in p.children && "value" in p.children
  {
    match Prune(p.children["key"], norm, schema, at, chunk)
    case Err(e) => Err(e)
    case Ok(key) =>
      if n == 1 then Ok(key)
      else
        match Prune(p.children["value"], norm, schema, key.at, key.chunk)
        case Err(e) => Err(e)
        case Ok(value) => Ok(Then(key, value))
  }

  function EntryPruned(p: Pruner, norm: string -> string, kids: seq<Tree>): Result<seq<Tree>>
    requires "key" in p.children && "value" in p.children
    requires AllWellFormed(kids) && 1 <= |kids| <= 2
  {
    match Pruned(p.children["key"], norm, kids[0])
    case Err(e) => Err(e)
    case Ok(key) =>
      if |kids| == 1 then Ok(key)
      else
        match Pruned(p.children["value"], norm, kids[1])
        case Err(e) => Err(e)
        case Ok(value) => Ok(key + value)
  }

  lemma {:induction false} EntryFollowsTree(p: Pruner, norm: string -> string, schema: seq<Element>, at: nat,
                                            chunk: nat, kids: seq<Tree>)
    requires "key" in p.children && "value" in p.children
    requires AllWellFormed(kids) && 1 <= |kids| <= 2 && Holds(schema, at, FlattenAll(kids))
    ensures SameOutcome(schema, at, chunk, FlattenAll(kids), EntryWalk(p, norm, schema, at, chunk, |kids|),
                        EntryPruned(p, norm, kids))
    decreases p, 0
  {
    HoldsForest(schema, at, kids);
    PruneFollowsTree(p.children["key"], norm, schema, at, chunk, kids[0]);
    if |kids| == 1 {
      assert FlattenAll(kids) == Flatten(kids[0]);
    } else {
      var key := Prune(p.children["key"], norm, schema, at, chunk);
      if key.Ok? {
        assert kids[1..] == [kids[1]];
        FlattenOne(kids[1]);
        PruneFollowsTree(p.children["value"], norm, schema, key.value.at, key.value.chunk, kids[1]);
        var value := Prune(p.children["value"], norm, schema, key.value.at, key.value.chunk);
        if value.Ok? {
          WalkedThen(schema, at, chunk, Flatten(kids[0]), Flatten(kids[1]), key.value, value.value,
                     Pruned(p.children["key"], norm, kids[0]).value, Pruned(p.children["value"], norm, kids[1]).value);
        }
      }
    }
  }

  lemma {:induction false} MapFollowsTree(p: Pruner, norm: string -> string, schema: seq<Element>, at: nat,
                                          chunk: nat, t: Tree)
    requires WellFormed(t) && Holds(schema, at, Flatten(t))
    ensures SameOutcome(schema, at, chunk, Flatten(t), PruneMap(p, norm, schema, at, chunk), PrunedMap(p, norm, t))
    decreases p, 1
  {
    HoldsTree(schema, at, t);
    if "key" in p.children && "value" in p.children && !t.elem.isLeaf && t.elem.isMap && |t.kids| == 1 {
      var entry := t.kids[0];
      OnlyKid(schema, at, t);
      HoldsTree(schema, at + 1, entry);
      if entry.elem.isRepeated && 1 <= |entry.kids| <= 2 {
        var n := |entry.kids|;
        EntryFollowsTree(p, norm, schema, at + 2, chunk, entry.kids);
        var r, kept := EntryWalk(p, norm, schema, at + 2, chunk, n), EntryPruned(p, norm, entry.kids);
        WrapOutcome(schema, at + 1, chunk, n, FlattenAll(entry.kids), r, kept);
        WrapOutcome(schema, at, chunk, 1, Flatten(entry), Under([Pick(at + 1, n)], r), Wrapped(entry.elem, n, kept));
        UnderTwice(Pick(at, 1), Pick(at + 1, n), r);
        assert PruneMap(p, norm, schema, at, chunk) == Under([Pick(at, 1), Pick(at + 1, n)], r);
      }
    }
  }

  /**
    Pruning preserves the tree. On the flattening of a well-formed schema tree, wherever it stands in
    the schema, the walk fails exactly when pruning the tree fails, with the same error; otherwise it
    passes over exactly that tree and its leaves, and gathering its picks gives the flattening of what
    is left of the tree.
  */
  lemma {:induction false} PruneFollowsTree(p: Pruner, norm: string -> string, schema: seq<Element>, at: nat,
                                            chunk: nat, t: Tree)
    requires WellFormed(t) && Holds(schema, at, Flatten(t))
    ensures SameOutcome(schema, at, chunk, Flatten(t), Prune(p, norm, schema, at, chunk), Pruned(p, norm, t))
    decreases p, 2
  {
    match p.tag
    case Value => LeafFollowsTree(schema, at, chunk, t);
    case Struct => StructFollowsTree(p, norm, schema, at, chunk, t);
    case List => ListFollowsTree(p, norm, schema, at, chunk, t);
    case Map => MapFollowsTree(p, norm, schema, at, chunk, t);
  }

  /** A walk that returns has passed over exactly one subtree and all its leaves. */
  lemma {:induction false} PrunePassesOneTree(p: Pruner, norm: string -> string, schema: seq<Element>, at: nat,
                                              chunk: nat, t: Tree)
    requires WellFormed(t) && Holds(schema, at, Flatten(t)) && Prune(p, norm, schema, at, chunk).Ok?
    ensures Prune(p, norm, schema, at, chunk).value.at == at + |Flatten(t)|
    ensures Prune(p, norm, schema, at, chunk).value.chunk == chunk + Leaves(Flatten(t))
  {
    hide Prune, Pruned, Flatten, LeafRank, Gather;
    PruneFollowsTree(p, norm, schema, at, chunk, t);
  }
}
