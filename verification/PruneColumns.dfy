/**
  Which columns survive the pruning of a footer, and that chunks and leaves stay aligned.
*/
module PruneColumns {
  import opened Collections
  import opened PruneSpec
  import opened PruneTree

  // ----- chunk k of the pruned footer belongs to leaf k of the pruned schema -----

  function LeafElements(s: seq<Element>): seq<Element>
  {
    if s == [] then [] else IfLeaf(s[0]) + LeafElements(s[1..])
  }

  function IfLeaf(e: Element): seq<Element>
  {
    if e.isLeaf then [e] else []
  }

  function Select<T>(s: seq<T>, at: seq<nat>): (r: seq<T>)
    requires forall k | 0 <= k < |at| :: at[k] < |s|
    ensures |r| == |at| && forall k | 0 <= k < |at| :: r[k] == s[at[k]]
  {
    seq(|at|, k requires 0 <= k < |at| => s[at[k]])
  }

  lemma {:induction false} LeafElementsConcat(a: seq<Element>, b: seq<Element>)
    ensures LeafElements(a + b) == LeafElements(a) + LeafElements(b)
  {
    if a == [] {
      assert a + b == b;
    } else {
      hide IfLeaf;
      LeafElementsConcat(a[1..], b);
      var c := a + b;
      assert c[0] == a[0] && c[1..] == a[1..] + b;
      Regroup(IfLeaf(a[0]), LeafElements(a[1..]), LeafElements(b));
    }
  }

  lemma {:induction false} LeafElementsCount(s: seq<Element>, n: nat)
    requires n <= |s|
    ensures |LeafElements(s[..n])| == LeafRank(s, n)
    decreases n
  {
    if n > 0 {
      LeafElementsCount(s, n - 1);
      assert s[..n] == s[..n - 1] + [s[n - 1]];
      LeafElementsConcat(s[..n - 1], [s[n - 1]]);
    }
  }

  /** The leaf at a position is the one its rank counts. */
  lemma {:induction false} LeafAtRank(s: seq<Element>, at: nat)
    requires at < |s| && s[at].isLeaf
    ensures LeafRank(s, at) < |LeafElements(s)| && LeafElements(s)[LeafRank(s, at)] == s[at]
  {
    assert s == s[..at] + ([s[at]] + s[at + 1..]);
    LeafElementsConcat(s[..at], [s[at]] + s[at + 1..]);
    LeafElementsConcat([s[at]], s[at + 1..]);
    assert LeafElements([s[at]]) == [s[at]];
    LeafElementsCount(s, at);
  }

  ghost predicate Ranks(schema: seq<Element>, chunks: seq<nat>)
  {
    forall k | 0 <= k < |chunks| :: chunks[k] < |LeafElements(schema)|
  }

  lemma {:induction false} GatheredLeaves(schema: seq<Element>, picks: seq<Pick>)
    requires InRange(schema, picks) && LeavesUntouched(schema, picks)
    ensures Ranks(schema, LeafRanks(schema, picks))
    ensures LeafElements(Gather(schema, picks)) == Select(LeafElements(schema), LeafRanks(schema, picks))
  {
    if picks != [] {
      hide LeafElements, LeafRank, Gather;
      var e, leaves := schema[picks[0].index], LeafElements(schema);
      GatheredLeaves(schema, picks[1..]);
      GatheredHead(schema, picks);
      if e.isLeaf {
        LeafAtRank(schema, picks[0].index);
        SelectHead(leaves, LeafRank(schema, picks[0].index), LeafRanks(schema, picks[1..]));
      }
    }
  }

  lemma {:induction false} SelectHead<T>(s: seq<T>, first: nat, rest: seq<nat>)
    requires first < |s| && forall k | 0 <= k < |rest| :: rest[k] < |s|
    ensures forall k | 0 <= k <= |rest| :: ([first] + rest)[k] < |s|
    ensures Select(s, [first] + rest) == [s[first]] + Select(s, rest)
  {
  }

  lemma {:induction false} GatheredHead(schema: seq<Element>, picks: seq<Pick>)
    requires picks != [] && InRange(schema, picks) && LeavesUntouched(schema, picks)
    ensures
      var e, rest := schema[picks[0].index], LeafElements(Gather(schema, picks[1..]));
      LeafElements(Gather(schema, picks)) == if e.isLeaf then [e] + rest else rest
  {
    var g := Gather(schema, picks);
    assert g[0] == Recount(schema[picks[0].index], picks[0].count) && g[1..] == Gather(schema, picks[1..]);
  }

  lemma {:induction false} ChunksAscend(schema: seq<Element>, picks: seq<Pick>, from: nat, to: nat)
    requires InRange(schema, picks) && PicksWithin(picks, from, to) && from <= |schema| && to <= |schema|
    ensures forall k | 0 <= k < |LeafRanks(schema, picks)| :: LeafRank(schema, from) <= LeafRanks(schema, picks)[k]
    ensures forall j, k | 0 <= j < k < |LeafRanks(schema, picks)| ::
              LeafRanks(schema, picks)[j] < LeafRanks(schema, picks)[k]
    decreases |picks|
  {
    if picks != [] {
      var at := picks[0].index;
      ChunksAscend(schema, picks[1..], at + 1, to);
      RankGrows(schema, from, at);
      RankGrows(schema, at, at + 1);
    } else {
      RankGrows(schema, from, from);
    }
  }

  lemma {:induction false} RankGrows(schema: seq<Element>, i: nat, j: nat)
    requires i <= j <= |schema|
    ensures LeafRank(schema, i) <= LeafRank(schema, j)
    decreases j
  {
    if i < j {
      RankGrows(schema, i, j - 1);
    }
  }

  /**
    Filtered chunks line up with filtered leaves: for a schema whose leaves are childless, the k-th leaf
    of the gathered schema is the original leaf with rank chunks[k], for every k, and the chunk map is
    strictly increasing.
  */
  lemma {:induction false} ChunksLineUpWithLeaves(p: Pruner, norm: string -> string, schema: seq<Element>)
    requires LeavesAreChildless(schema)
    requires Prune(p, norm, schema, 0, 0).Ok?
    ensures
      var piece := Prune(p, norm, schema, 0, 0).value;
      && InRange(schema, piece.picks)
      && Ranks(schema, piece.chunks)
      && LeafElements(Gather(schema, piece.picks)) == Select(LeafElements(schema), piece.chunks)
      && (forall j, k | 0 <= j < k < |piece.chunks| :: piece.chunks[j] < piece.chunks[k])
  {
    PruneInStep(p, norm, schema, 0);
    var piece := Prune(p, norm, schema, 0, 0).value;
    GatheredLeaves(schema, piece.picks);
    ChunksAscend(schema, piece.picks, 0, piece.at);
  }

  lemma {:induction false} FlatteningIsChildless(t: Tree)
    requires WellFormed(t)
    ensures LeavesAreChildless(Flatten(t))
    decreases t, 1
  {
    FlatteningsAreChildless(t.kids);
    var s := Flatten(t);
    assert forall i | 1 <= i < |s| :: s[i] == FlattenAll(t.kids)[i - 1];
  }

  lemma {:induction false} FlatteningsAreChildless(ts: seq<Tree>)
    requires AllWellFormed(ts)
    ensures LeavesAreChildless(FlattenAll(ts))
    decreases ts, 0
  {
    hide Flatten;
    if ts != [] {
      FlatteningIsChildless(ts[0]);
      FlatteningsAreChildless(ts[1..]);
    }
  }

  // ----- which columns survive -----

  datatype Step = Step(index: nat, elem: Element)

  /** The way from an element down to a leaf, with each element's place among its siblings. */
  type Path = seq<Step>

  ghost predicate AllStartWith(paths: seq<Path>, s: Step)
  {
    forall k | 0 <= k < |paths| :: |paths[k]| > 0 && paths[k][0] == s
  }

  ghost predicate AllNonempty(paths: seq<Path>)
  {
    forall k | 0 <= k < |paths| :: |paths[k]| > 0
  }

  function Prefixed(s: Step, paths: seq<Path>): (r: seq<Path>)
    ensures |r| == |paths| && forall k | 0 <= k < |r| :: r[k] == [s] + paths[k]
  {
    seq(|paths|, k requires 0 <= k < |paths| => [s] + paths[k])
  }

  /** The paths to the leaves of a tree that is child number i, in order. */
  ghost function Paths(t: Tree, i: nat): (r: seq<Path>)
    ensures AllStartWith(r, Step(i, t.elem))
    decreases t, 1
  {
    if t.elem.isLeaf then [[Step(i, t.elem)]] else Prefixed(Step(i, t.elem), ForestPaths(t.kids, 0))
  }

  ghost function ForestPaths(ts: seq<Tree>, i: nat): (r: seq<Path>)
    ensures AllNonempty(r)
    decreases ts, 0
  {
    if ts == [] then [] else Paths(ts[0], i) + ForestPaths(ts[1..], i + 1)
  }

  /** A pruner wants the leaf at the end of a path. */
  predicate Wants(p: Pruner, norm: string -> string, path: Path)
    decreases p
  {
    match p.tag
    case Value => true
    case Struct =>
      |path| > 1 && norm(path[1].elem.name) in p.children && Wants(p.children[norm(path[1].elem.name)], norm, path[1..])
    case List =>
      |path| <= 1 ||
      ("element" in p.children &&
        if NumChildren(path[0].elem) > 1 then Wants(p.children["element"], norm, path)
        else if IsThreeLevel(path[0].elem, path[1].elem) then Wants(p.children["element"], norm, path[2..])
        else Wants(p.children["element"], norm, path[1..]))
    case Map =>
      |path| > 2 &&
      var part := if path[2].index == 0 then "key" else "value";
      part in p.children && Wants(p.children[part], norm, path[2..])
  }

  predicate WantsChild(p: Pruner, norm: string -> string, path: Path)
  {
    |path| > 0 && norm(path[0].elem.name) in p.children && Wants(p.children[norm(path[0].elem.name)], norm, path)
  }

  /** The places of the paths that pass a test, counted from a base. */
  function Chosen(f: Path -> bool, paths: seq<Path>, base: nat): seq<nat>
  {
    if paths == [] then [] else (if f(paths[0]) then [base] else []) + Chosen(f, paths[1..], base + 1)
  }

  function Wanting(p: Pruner, norm: string -> string): Path -> bool
  {
    (path: Path) => Wants(p, norm, path)
  }

  function WantingChild(p: Pruner, norm: string -> string): Path -> bool
  {
    (path: Path) => WantsChild(p, norm, path)
  }

  lemma {:induction false} ChosenConcat(f: Path -> bool, a: seq<Path>, b: seq<Path>, base: nat)
    ensures Chosen(f, a + b, base) == Chosen(f, a, base) + Chosen(f, b, base + |a|)
    decreases |a|
  {
    if a == [] {
      assert a + b == b;
    } else {
      ChosenConcat(f, a[1..], b, base + 1);
      var c := a + b;
      assert c[0] == a[0] && c[1..] == a[1..] + b;
      Regroup(if f(a[0]) then [base] else [], Chosen(f, a[1..], base + 1), Chosen(f, b, base + |a|));
    }
  }

  lemma {:induction false} ChosenSame(f: Path -> bool, a: seq<Path>, g: Path -> bool, b: seq<Path>, base: nat)
    requires |a| == |b| && forall k | 0 <= k < |a| :: f(a[k]) == g(b[k])
    ensures Chosen(f, a, base) == Chosen(g, b, base)
    decreases |a|
  {
    if a != [] {
      ChosenSame(f, a[1..], g, b[1..], base + 1);
    }
  }

  lemma {:induction false} NoneChosen(f: Path -> bool, a: seq<Path>, base: nat)
    requires forall k | 0 <= k < |a| :: !f(a[k])
    ensures Chosen(f, a, base) == []
    decreases |a|
  {
    if a != [] {
      NoneChosen(f, a[1..], base + 1);
    }
  }

  lemma {:induction false} OnePathPerLeaf(t: Tree, i: nat)
    requires WellFormed(t)
    ensures |Paths(t, i)| == Leaves(Flatten(t))
    decreases t, 1
  {
    LeavesConcat([t.elem], FlattenAll(t.kids));
    LeavesOfOne(t.elem);
    if t.elem.isLeaf {
      EmptyForest();
    } else {
      OnePathPerForestLeaf(t.kids, 0);
    }
  }

  lemma {:induction false} OnePathPerForestLeaf(ts: seq<Tree>, i: nat)
    requires AllWellFormed(ts)
    ensures |ForestPaths(ts, i)| == Leaves(FlattenAll(ts))
    decreases ts, 0
  {
    hide Flatten, Paths, LeafRank;
    if ts == [] {
      EmptyForest();
    } else {
      OnePathPerLeaf(ts[0], i);
      OnePathPerForestLeaf(ts[1..], i + 1);
      LeavesConcat(Flatten(ts[0]), FlattenAll(ts[1..]));
    }
  }

  lemma {:induction false} KidsKeepTheWanted(p: Pruner, norm: string -> string, schema: seq<Element>, at: nat,
                                             chunk: nat, kids: seq<Tree>, i: nat)
    requires AllWellFormed(kids) && Holds(schema, at, FlattenAll(kids))
    requires PruneKids(p, norm, schema, at, chunk, |kids|).Ok?
    ensures PruneKids(p, norm, schema, at, chunk, |kids|).value.0.chunks
         == Chosen(WantingChild(p, norm), ForestPaths(kids, i), chunk)
    decreases p, 0, |kids|
  {
    hide Flatten, Paths, LeafRank, Prune, Skip, WellFormed, Wants, Holds, Chosen, FlattenAll;
    if kids == [] {
      NoneChosen(WantingChild(p, norm), [], chunk);
    } else {
      var t, rest := kids[0], kids[1..];
      HoldsForest(schema, at, kids);
      HoldsTree(schema, at, t);
      OnePathPerLeaf(t, i);
      ChosenConcat(WantingChild(p, norm), Paths(t, i), ForestPaths(rest, i + 1), chunk);
      var name := norm(t.elem.name);
      if name in p.children {
        PruneKeepsTheWanted(p.children[name], norm, schema, at, chunk, t, i);
        PrunePassesOneTree(p.children[name], norm, schema, at, chunk, t);
        var kid := Prune(p.children[name], norm, schema, at, chunk).value;
        ChosenSame(Wanting(p.children[name], norm), Paths(t, i), WantingChild(p, norm), Paths(t, i), chunk);
        KidsKeepTheWanted(p, norm, schema, kid.at, kid.chunk, rest, i + 1);
      } else {
        SkipPassesOneTree(schema, at, chunk, t);
        NoneChosen(WantingChild(p, norm), Paths(t, i), chunk);
        KidsKeepTheWanted(p, norm, schema, at + |Flatten(t)|, chunk + Leaves(Flatten(t)), rest, i + 1);
      }
    }
  }

  lemma {:induction false} StructKeepsTheWanted(p: Pruner, norm: string -> string, schema: seq<Element>, at: nat,
                                                chunk: nat, t: Tree, i: nat)
    requires p.tag == Struct && WellFormed(t) && Holds(schema, at, Flatten(t))
    requires PruneStruct(p, norm, schema, at, chunk).Ok?
    ensures PruneStruct(p, norm, schema, at, chunk).value.chunks == Chosen(Wanting(p, norm), Paths(t, i), chunk)
    decreases p, 1
  {
    HoldsTree(schema, at, t);
    KidsKeepTheWanted(p, norm, schema, at + 1, chunk, t.kids, 0);
    var inner := ForestPaths(t.kids, 0);
    forall k | 0 <= k < |inner| ensures Wants(p, norm, Paths(t, i)[k]) == WantsChild(p, norm, inner[k]) {
      assert Paths(t, i)[k][1..] == inner[k];
    }
    ChosenSame(Wanting(p, norm), Paths(t, i), WantingChild(p, norm), inner, chunk);
  }

  lemma {:induction false} OneTreePaths(t: Tree, i: nat)
    ensures ForestPaths([t], i) == Paths(t, i)
  {
  }

  /** The paths of a tree with a single child. */
  lemma {:induction false} OnlyKidPaths(t: Tree, i: nat)
    requires WellFormed(t) && |t.kids| == 1
    ensures Paths(t, i) == Prefixed(Step(i, t.elem), Paths(t.kids[0], 0))
  {
    assert t.kids == [t.kids[0]];
    OneTreePaths(t.kids[0], 0);
  }

  /** A list that is a repeated leaf. */
  lemma {:induction false} LeafListKeepsTheWanted(p: Pruner, norm: string -> string, schema: seq<Element>, at: nat,
                                                  chunk: nat, t: Tree, i: nat)
    requires p.tag == List && WellFormed(t) && Holds(schema, at, Flatten(t)) && t.elem.isLeaf
    requires PruneList(p, norm, schema, at, chunk).Ok?
    ensures PruneList(p, norm, schema, at, chunk).value.chunks == Chosen(Wanting(p, norm), Paths(t, i), chunk)
  {
    hide Holds, Flatten, Prune;
    HoldsTree(schema, at, t);
    var paths := Paths(t, i);
    assert paths[1..] == [];
  }

  /** What a list keeps is what its element keeps of the content, wherever that stands. */
  lemma {:induction false} ContentKeepsTheWanted(p: Pruner, norm: string -> string, schema: seq<Element>, from: nat,
                                                 chunk: nat, content: Tree, j: nat, paths: seq<Path>)
    requires "element" in p.children && WellFormed(content) && Holds(schema, from, Flatten(content))
    requires Prune(p.children["element"], norm, schema, from, chunk).Ok?
    requires |paths| == |Paths(content, j)|
    requires forall k | 0 <= k < |paths| ::
      Wants(p, norm, paths[k]) == Wants(p.children["element"], norm, Paths(content, j)[k])
    ensures Prune(p.children["element"], norm, schema, from, chunk).value.chunks ==
            Chosen(Wanting(p, norm), paths, chunk)
    decreases p, 0
  {
    hide Prune, Flatten, Holds, WellFormed, Paths, Wants, Chosen;
    PruneKeepsTheWanted(p.children["element"], norm, schema, from, chunk, content, j);
    ChosenSame(Wanting(p, norm), paths, Wanting(p.children["element"], norm), Paths(content, j), chunk);
  }

  lemma {:induction false} GroupListKeepsTheWanted(p: Pruner, norm: string -> string, schema: seq<Element>, at: nat,
                                                   chunk: nat, t: Tree, i: nat)
    requires p.tag == List && WellFormed(t) && Holds(schema, at, Flatten(t)) && !t.elem.isLeaf
    requires PruneList(p, norm, schema, at, chunk).Ok?
    ensures PruneList(p, norm, schema, at, chunk).value.chunks == Chosen(Wanting(p, norm), Paths(t, i), chunk)
    decreases p, 1
  {
    hide Prune, Flatten, Holds, Paths, Wants, Chosen;
    HoldsTree(schema, at, t);
    if |t.kids| > 1 {
      MultiFieldList(p, norm, t, i);
      ContentKeepsTheWanted(p, norm, schema, at, chunk, t, i, Paths(t, i));
    } else {
      var field := t.kids[0];
      assert WellFormed(field);
      OnlyKid(schema, at, t);
      HoldsTree(schema, at + 1, field);
      if IsThreeLevel(t.elem, field.elem) {
        OnlyKid(schema, at + 1, field);
        ThreeLevelList(p, norm, t, i);
        ContentKeepsTheWanted(p, norm, schema, at + 2, chunk, field.kids[0], 0, Paths(t, i));
      } else {
        TwoLevelList(p, norm, t, i);
        ContentKeepsTheWanted(p, norm, schema, at + 1, chunk, field, 0, Paths(t, i));
      }
    }
  }

  lemma {:induction false} MultiFieldList(p: Pruner, norm: string -> string, t: Tree, i: nat)
    requires p.tag == List && "element" in p.children && WellFormed(t) && |t.kids| > 1
    ensures forall k | 0 <= k < |Paths(t, i)| ::
              Wants(p, norm, Paths(t, i)[k]) == Wants(p.children["element"], norm, Paths(t, i)[k])
  {
  }

  lemma {:induction false} TwoLevelList(p: Pruner, norm: string -> string, t: Tree, i: nat)
    requires p.tag == List && "element" in p.children && WellFormed(t) && |t.kids| == 1
    requires !IsThreeLevel(t.elem, t.kids[0].elem)
    ensures var inner := Paths(t.kids[0], 0);
      && |Paths(t, i)| == |inner|
      && forall k | 0 <= k < |inner| :: Wants(p, norm, Paths(t, i)[k]) == Wants(p.children["element"], norm, inner[k])
  {
    OnlyKidPaths(t, i);
    var inner := Paths(t.kids[0], 0);
    forall k | 0 <= k < |inner|
      ensures Wants(p, norm, Paths(t, i)[k]) == Wants(p.children["element"], norm, inner[k]) {
      assert Paths(t, i)[k][1..] == inner[k];
    }
  }

  lemma {:induction false} ThreeLevelList(p: Pruner, norm: string -> string, t: Tree, i: nat)
    requires p.tag == List && "element" in p.children && WellFormed(t) && |t.kids| == 1
    requires WellFormed(t.kids[0]) && IsThreeLevel(t.elem, t.kids[0].elem)
    ensures var inner := Paths(t.kids[0].kids[0], 0);
      && |Paths(t, i)| == |inner|
      && forall k | 0 <= k < |inner| :: Wants(p, norm, Paths(t, i)[k]) == Wants(p.children["element"], norm, inner[k])
  {
    OnlyKidPaths(t, i);
    OnlyKidPaths(t.kids[0], 0);
    var inner := Paths(t.kids[0].kids[0], 0);
    forall k | 0 <= k < |inner|
      ensures Wants(p, norm, Paths(t, i)[k]) == Wants(p.children["element"], norm, inner[k]) {
      assert Paths(t, i)[k][2..] == inner[k];
    }
  }

  /** The part of a map's entry that a path goes through. */
  predicate WantsPart(p: Pruner, norm: string -> string, path: Path)
  {
    |path| > 0 &&
    var part := if path[0].index == 0 then "key" else "value";
    part in p.children && Wants(p.children[part], norm, path)
  }

  function WantingPart(p: Pruner, norm: string -> string): Path -> bool
  {
    (path: Path) => WantsPart(p, norm, path)
  }

  lemma {:induction false} EntryKeepsTheWanted(p: Pruner, norm: string -> string, schema: seq<Element>, at: nat,
                                               chunk: nat, kids: seq<Tree>)
    requires "key" in p.children && "value" in p.children
    requires AllWellFormed(kids) && 1 <= |kids| <= 2 && Holds(schema, at, FlattenAll(kids))
    requires EntryWalk(p, norm, schema, at, chunk, |kids|).Ok?
    ensures EntryWalk(p, norm, schema, at, chunk, |kids|).value.chunks
         == Chosen(WantingPart(p, norm), ForestPaths(kids, 0), chunk)
    decreases p, 0
  {
    hide Flatten, Paths, LeafRank, Prune, WellFormed, Wants, Holds, Chosen;
    var f := WantingPart(p, norm);
    var keyPruner, valuePruner := p.children["key"], p.children["value"];
    HoldsForest(schema, at, kids);
    PrunePassesOneTree(keyPruner, norm, schema, at, chunk, kids[0]);
    PruneKeepsTheWanted(keyPruner, norm, schema, at, chunk, kids[0], 0);
    var key := Prune(keyPruner, norm, schema, at, chunk).value;
    var keys, rest := Paths(kids[0], 0), ForestPaths(kids[1..], 1);
    OnePathPerLeaf(kids[0], 0);
    ChosenConcat(f, keys, rest, chunk);
    ChosenSame(f, keys, Wanting(keyPruner, norm), keys, chunk);
    if |kids| == 1 {
      assert kids[1..] == [];
      NoneChosen(f, rest, chunk + |keys|);
    } else {
      assert kids[1..] == [kids[1]];
      FlattenOne(kids[1]);
      OneTreePaths(kids[1], 1);
      var values := Paths(kids[1], 1);
      PruneKeepsTheWanted(valuePruner, norm, schema, key.at, key.chunk, kids[1], 1);
      ChosenSame(f, values, Wanting(valuePruner, norm), values, key.chunk);
    }
  }

  /** The way through a map's entries. */
  lemma {:induction false} MapPaths(p: Pruner, norm: string -> string, t: Tree, i: nat)
    requires p.tag == Map && WellFormed(t) && |t.kids| == 1 && WellFormed(t.kids[0]) && !t.kids[0].elem.isLeaf
    ensures var content := ForestPaths(t.kids[0].kids, 0);
      && |Paths(t, i)| == |content|
      && forall k | 0 <= k < |content| :: Wants(p, norm, Paths(t, i)[k]) == WantsPart(p, norm, content[k])
  {
    OnlyKidPaths(t, i);
    var content := ForestPaths(t.kids[0].kids, 0);
    forall k | 0 <= k < |content| ensures Wants(p, norm, Paths(t, i)[k]) == WantsPart(p, norm, content[k]) {
      assert Paths(t, i)[k][2..] == content[k];
    }
  }

  /** The chunks of a map are those of its entries. */
  lemma {:induction false} MapChunks(p: Pruner, norm: string -> string, schema: seq<Element>, at: nat, chunk: nat,
                                     n: nat)
    requires p.tag == Map && PruneMap(p, norm, schema, at, chunk).Ok? && n == NumChildren(schema[at + 1])
    ensures "key" in p.children && "value" in p.children && 1 <= n <= 2
    ensures EntryWalk(p, norm, schema, at + 2, chunk, n).Ok?
    ensures PruneMap(p, norm, schema, at, chunk).value.chunks ==
            EntryWalk(p, norm, schema, at + 2, chunk, n).value.chunks
  {
    hide Prune;
  }

  lemma {:induction false} MapKeepsTheWanted(p: Pruner, norm: string -> string, schema: seq<Element>, at: nat,
                                             chunk: nat, t: Tree, i: nat)
    requires p.tag == Map && WellFormed(t) && Holds(schema, at, Flatten(t))
    requires PruneMap(p, norm, schema, at, chunk).Ok?
    ensures PruneMap(p, norm, schema, at, chunk).value.chunks == Chosen(Wanting(p, norm), Paths(t, i), chunk)
    decreases p, 1
  {
    hide Holds, Flatten, FlattenAll, Paths, Wants, WantsPart, Chosen, EntryWalk, Prune;
    HoldsTree(schema, at, t);
    var entry := t.kids[0];
    assert WellFormed(entry);
    OnlyKid(schema, at, t);
    HoldsTree(schema, at + 1, entry);
    MapChunks(p, norm, schema, at, chunk, |entry.kids|);
    EntryKeepsTheWanted(p, norm, schema, at + 2, chunk, entry.kids);
    MapPaths(p, norm, t, i);
    ChosenSame(Wanting(p, norm), Paths(t, i), WantingPart(p, norm), ForestPaths(entry.kids, 0), chunk);
  }

  lemma {:induction false} PruneKeepsTheWanted(p: Pruner, norm: string -> string, schema: seq<Element>, at: nat,
                                               chunk: nat, t: Tree, i: nat)
    requires WellFormed(t) && Holds(schema, at, Flatten(t))
    requires Prune(p, norm, schema, at, chunk).Ok?
    ensures Prune(p, norm, schema, at, chunk).value.chunks == Chosen(Wanting(p, norm), Paths(t, i), chunk)
    decreases p, 2
  {
    match p.tag
    case Value =>
      HoldsTree(schema, at, t);
      assert Paths(t, i)[1..] == [];
    case Struct => StructKeepsTheWanted(p, norm, schema, at, chunk, t, i);
    case List =>
      if t.elem.isLeaf {
        LeafListKeepsTheWanted(p, norm, schema, at, chunk, t, i);
      } else {
        GroupListKeepsTheWanted(p, norm, schema, at, chunk, t, i);
      }
    case Map => MapKeepsTheWanted(p, norm, schema, at, chunk, t, i);
  }

  /**
    Pruning keeps exactly the wanted columns: the chunk map of a whole footer lists, in order, the
    columns whose path the pruner wants, whatever the structs, lists and maps on the way.
  */
  lemma {:induction false} ExactlyTheWantedColumns(p: Pruner, norm: string -> string, t: Tree)
    requires WellFormed(t) && Pruned(p, norm, t).Ok?
    ensures Prune(p, norm, Flatten(t), 0, 0).Ok?
    ensures Prune(p, norm, Flatten(t), 0, 0).value.chunks == Chosen(Wanting(p, norm), Paths(t, 0), 0)
    ensures |Paths(t, 0)| == |LeafElements(Flatten(t))|
  {
    var schema := Flatten(t);
    assert schema[0..|schema|] == schema && schema[..|schema|] == schema;
    PruneFollowsTree(p, norm, schema, 0, 0, t);
    PruneKeepsTheWanted(p, norm, schema, 0, 0, t, 0);
    OnePathPerLeaf(t, 0);
    LeafElementsCount(schema, |schema|);
  }
}
