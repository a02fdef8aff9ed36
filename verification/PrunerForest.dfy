/**
  What building a pruner from a depth-first list achieves: exactly the complete forests are accepted,
  and a forest with distinct sibling names is rebuilt as it was.
*/
module PrunerForest {
  import opened Collections
  import opened PruneSpec
  import opened PrunerTree

  /** A wanted column with the columns below it. */
  datatype Wish = Wish(name: string, tag: Tag, kids: seq<Wish>)

  function Listed(w: Wish): seq<Entry>
    decreases w, 1
  {
    [Entry(w.name, |w.kids|, w.tag)] + ListedAll(w.kids)
  }

  function ListedAll(ws: seq<Wish>): seq<Entry>
    decreases ws, 0
  {
    if ws == [] then [] else Listed(ws[0]) + ListedAll(ws[1..])
  }

  lemma {:induction false} ListedConcat(a: seq<Wish>, b: seq<Wish>)
    ensures ListedAll(a + b) == ListedAll(a) + ListedAll(b)
  {
    hide Listed;
    if a == [] {
      assert a + b == b;
    } else {
      ListedConcat(a[1..], b);
      var c := a + b;
      assert c[0] == a[0] && c[1..] == a[1..] + b;
      Regroup(Listed(a[0]), ListedAll(a[1..]), ListedAll(b));
    }
  }

  /** A list of a forest without its first entry lists another forest. */
  lemma {:induction false} ListHead(ws: seq<Wish>)
    requires ws != []
    ensures ListedAll(ws) == [Entry(ws[0].name, |ws[0].kids|, ws[0].tag)] + ListedAll(ws[0].kids + ws[1..])
  {
    ListedConcat(ws[0].kids, ws[1..]);
    Regroup([Entry(ws[0].name, |ws[0].kids|, ws[0].tag)], ListedAll(ws[0].kids), ListedAll(ws[1..]));
  }

  // ----- which lists are accepted -----

  function AtLeast(n: int, low: int): int { if n < low then low else n }

  /** How many more entries are needed after a list when n were needed in front of it. */
  function Needed(n: int, entries: seq<Entry>): int
    decreases |entries|
  {
    if entries == [] then n else Needed(n - 1 + AtLeast(entries[0].numChildren, 0), entries[1..])
  }

  /** Entries still needed by a stack of counts; each count but the innermost includes the child in progress. */
  function Pending(counts: seq<int>): int
  {
    if counts == [] then 0
    else AtLeast(counts[|counts| - 1], 1) - 1 + AtLeast(Pending(counts[..|counts| - 1]), 1)
  }

  lemma {:induction false} UnwindTakesOne(path: Path, counts: seq<int>)
    requires |counts| == |path| + 1
    ensures Pending(counts) >= 1
    ensures Pending(Unwind(path, counts).1) == Pending(counts) - 1
    ensures Pending(counts) == 1 <==> Unwind(path, counts).1 == []
    decreases |path|
  {
    var top := |counts| - 1;
    if counts[top] - 1 > 0 {
      var less := counts[top := counts[top] - 1];
      assert less[..top] == counts[..top];
    } else if top > 0 {
      UnwindTakesOne(path[..top - 1], counts[..top]);
    }
  }

  lemma {:induction false} PendingPush(counts: seq<int>, n: int)
    requires counts != [] && n > 0 && Pending(counts) >= 1
    ensures Pending(counts + [n]) == Pending(counts) - 1 + n
  {
  }

  lemma {:induction false} PendingIsPositive(path: Path, counts: seq<int>)
    requires |counts| == |path| + 1
    ensures Pending(counts) >= 1
  {
  }

  /** No entry is needed before the list ends. */
  ghost predicate NeedsThroughout(n: int, entries: seq<Entry>)
  {
    forall i | 0 <= i < |entries| :: Needed(n, entries[..i]) > 0
  }

  lemma {:induction false} NeedsStep(n: int, entries: seq<Entry>)
    requires entries != []
    ensures var n' := n - 1 + AtLeast(entries[0].numChildren, 0);
      && (NeedsThroughout(n, entries) <==> n > 0 && NeedsThroughout(n', entries[1..]))
      && Needed(n, entries) == Needed(n', entries[1..])
  {
    var n' := n - 1 + AtLeast(entries[0].numChildren, 0);
    var rest := entries[1..];
    forall i | 0 <= i < |rest| ensures Needed(n', rest[..i]) == Needed(n, entries[..i + 1]) {
      assert entries[..i + 1][1..] == rest[..i];
    }
    assert entries[..0] == [] && Needed(n, []) == n;
    if NeedsThroughout(n, entries) {
      assert Needed(n, entries[..0]) > 0;
      assert NeedsThroughout(n', rest);
    }
    if n > 0 && NeedsThroughout(n', rest) {
      forall i | 0 <= i < |entries| ensures Needed(n, entries[..i]) > 0 {
        if i > 0 {
          assert Needed(n', rest[..i - 1]) > 0;
        }
      }
    }
  }

  /** More entries are needed, during the list and after it. */
  ghost predicate StopsShort(n: int, entries: seq<Entry>)
  {
    NeedsThroughout(n, entries) && Needed(n, entries) > 0
  }

  ghost predicate AsNeeded(o: Outcome, n: int, entries: seq<Entry>)
  {
    && (o.Built? <==> NeedsThroughout(n, entries) && Needed(n, entries) == 0)
    && (o.Rejected? <==> StopsShort(n, entries))
    && (o.Overrun? <==> !NeedsThroughout(n, entries))
  }

  lemma {:induction false} RunDecides(root: Pruner, path: Path, counts: seq<int>, entries: seq<Entry>)
    requires counts == [] || (|counts| == |path| + 1 && HasPath(root, path))
    ensures AsNeeded(Run(root, path, counts, entries), Pending(counts), entries)
    decreases |entries|
  {
    if counts != [] {
      PendingIsPositive(path, counts);
    }
    if entries != [] {
      NeedsStep(Pending(counts), entries);
      if counts != [] {
        var e := entries[0];
        var root' := Emplace(root, path, e.name, e.tag);
        if e.numChildren > 0 {
          PendingPush(counts, e.numChildren);
          RunDecides(root', path + [e.name], counts + [e.numChildren], entries[1..]);
        } else {
          var (path', counts') := Unwind(path, counts);
          UnwindTakesOne(path, counts);
          StillThere(root', path, e.name, path');
          RunDecides(root', path', counts', entries[1..]);
        }
      }
    }
  }

  /**
    A list is accepted exactly when it is a complete forest: entries are needed all the way through and
    none at the end. It is rejected exactly when it stops short of one, and read past its end exactly
    when entries follow one. Child counts below zero count as zero, a negative count for the root as one.
  */
  lemma {:induction false} AcceptedExactlyWhenComplete(root: Pruner, entries: seq<Entry>, parentNumChildren: int)
    requires parentNumChildren != 0
    ensures AsNeeded(Build(root, entries, parentNumChildren), AtLeast(parentNumChildren, 1), entries)
  {
    RunDecides(root, [], [parentNumChildren], entries);
    assert [parentNumChildren][..0] == [];
    assert Pending([parentNumChildren]) == AtLeast(parentNumChildren, 1);
  }

  // ----- complete lists are the listings of forests -----

  lemma {:induction false} ForestNeeds(n: int, ws: seq<Wish>)
    requires n >= |ws|
    ensures Needed(n, ListedAll(ws)) == n - |ws|
    ensures NeedsThroughout(n, ListedAll(ws))
    decreases |ListedAll(ws)|
  {
    if ws != [] {
      hide ListedAll;
      ListHead(ws);
      var inner := ws[0].kids + ws[1..];
      var all := ListedAll(ws);
      assert all[1..] == ListedAll(inner);
      NeedsStep(n, all);
      ForestNeeds(n - 1 + |ws[0].kids|, inner);
    }
  }

  /** The same list with counts below zero raised to zero. */
  function Leveled(entries: seq<Entry>): seq<Entry>
  {
    if entries == [] then []
    else [entries[0].(numChildren := AtLeast(entries[0].numChildren, 0))] + Leveled(entries[1..])
  }

  /** A complete list is that of a forest. */
  lemma {:induction false} CompleteListsAForest(n: nat, entries: seq<Entry>) returns (ws: seq<Wish>)
    requires NeedsThroughout(n, entries) && Needed(n, entries) == 0
    ensures |ws| == n && ListedAll(ws) == Leveled(entries)
    decreases |entries|
  {
    if entries == [] {
      ws := [];
    } else {
      var e, rest := entries[0], entries[1..];
      var c := AtLeast(e.numChildren, 0);
      NeedsStep(n, entries);
      var inner := CompleteListsAForest(n - 1 + c, rest);
      ws := [Wish(e.name, e.tag, inner[..c])] + inner[c..];
      assert ws[0].kids + ws[1..] == inner;
      ListHead(ws);
    }
  }

  /** The listing of a forest is accepted; cut short it is rejected; with anything after it, it is overrun. */
  lemma {:induction false} OnlyWholeForests(root: Pruner, ws: seq<Wish>, k: nat, extra: seq<Entry>)
    requires ws != [] && k < |ListedAll(ws)| && extra != []
    ensures Build(root, ListedAll(ws), |ws|).Built?
    ensures Build(root, ListedAll(ws)[..k], |ws|) == Rejected
    ensures Build(root, ListedAll(ws) + extra, |ws|) == Overrun
  {
    hide ListedAll, Run;
    var all, n := ListedAll(ws), |ws|;
    ForestNeeds(n, ws);
    AcceptedExactlyWhenComplete(root, all, n);
    AcceptedExactlyWhenComplete(root, all[..k], n);
    assert NeedsThroughout(n, all[..k]) by {
      forall i | 0 <= i < k ensures Needed(n, all[..k][..i]) > 0 {
        assert all[..k][..i] == all[..i];
      }
    }
    AcceptedExactlyWhenComplete(root, all + extra, n);
    assert (all + extra)[..|all|] == all;
  }

  // ----- the round trip -----

  function AsPruner(w: Wish): Pruner
    decreases w, 1
  {
    Pruner(w.tag, AsChildren(w.kids))
  }

  /** The children by name. */
  function AsChildren(ws: seq<Wish>): map<string, Pruner>
    decreases ws, 0
  {
    if ws == [] then map[] else AsChildren(ws[1..])[ws[0].name := AsPruner(ws[0])]
  }

  ghost predicate DistinctNames(ws: seq<Wish>)
  {
    && (forall i, j | 0 <= i < j < |ws| :: ws[i].name != ws[j].name)
    && (forall i | 0 <= i < |ws| :: DistinctNames(ws[i].kids))
  }

  lemma {:induction false} ChildNames(ws: seq<Wish>, name: string)
    ensures name in AsChildren(ws) <==> exists i | 0 <= i < |ws| :: ws[i].name == name
    decreases |ws|
  {
    if ws != [] {
      ChildNames(ws[1..], name);
      if exists i | 0 <= i < |ws| :: ws[i].name == name {
        var i :| 0 <= i < |ws| && ws[i].name == name;
        if i > 0 {
          assert ws[1..][i - 1].name == name;
        }
      }
    }
  }

  lemma {:induction false} SetTwice(root: Pruner, path: Path, a: Pruner, b: Pruner)
    requires HasPath(root, path)
    ensures SetAt(SetAt(root, path, a), path, b) == SetAt(root, path, b)
    decreases |path|
  {
    if path != [] {
      var name, kids := path[0], root.children;
      SetTwice(kids[name], path[1..], a, b);
      var x, y := SetAt(kids[name], path[1..], a), SetAt(kids[name], path[1..], b);
      assert kids[name := x][name := y] == kids[name := y];
    }
  }

  /** Setting a child sets its parent. */
  lemma {:induction false} SetChild(root: Pruner, path: Path, name: string, node: Pruner)
    requires HasPath(root, path) && name in At(root, path).children
    ensures HasPath(root, path + [name])
    ensures SetAt(root, path + [name], node)
         == SetAt(root, path, At(root, path).(children := At(root, path).children[name := node]))
    decreases |path|
  {
    ExtendPath(root, path, name);
    var longer := path + [name];
    if path == [] {
      assert longer[1..] == [];
    } else {
      SetChild(root.children[path[0]], path[1..], name, node);
      assert longer[1..] == path[1..] + [name];
    }
  }

  /** The tree with more children at a path. */
  function Adopt(root: Pruner, path: Path, more: map<string, Pruner>): Pruner
    requires HasPath(root, path)
  {
    SetAt(root, path, At(root, path).(children := At(root, path).children + more))
  }

  lemma {:induction false} AdoptBoth(root: Pruner, path: Path, a: map<string, Pruner>, b: map<string, Pruner>)
    requires HasPath(root, path)
    ensures HasPath(Adopt(root, path, a), path)
    ensures At(Adopt(root, path, a), path).children == At(root, path).children + a
    ensures Adopt(Adopt(root, path, a), path, b) == Adopt(root, path, a + b)
  {
    var node := At(root, path);
    assert (node.children + a) + b == node.children + (a + b);
    SetTwice(root, path, node.(children := node.children + a), node.(children := node.children + (a + b)));
  }

  /** A new name, and then its children: the same as adopting the finished node. */
  lemma {:induction false} AdoptInside(root: Pruner, path: Path, name: string, tag: Tag, kids: map<string, Pruner>)
    requires HasPath(root, path) && name !in At(root, path).children
    ensures
      var root' := Emplace(root, path, name, tag);
      && HasPath(root', path + [name]) && At(root', path + [name]) == Pruner(tag, map[])
      && Adopt(root', path + [name], kids) == Adopt(root, path, map[name := Pruner(tag, kids)])
  {
    var node := At(root, path);
    var inner := node.(children := node.children[name := Pruner(tag, map[])]);
    var root' := SetAt(root, path, inner);
    ExtendPath(root', path, name);
    SetChild(root', path, name, Pruner(tag, map[] + kids));
    var outer := inner.(children := inner.children[name := Pruner(tag, map[] + kids)]);
    assert map[] + kids == kids;
    assert outer.children == node.children + map[name := Pruner(tag, kids)];
    SetTwice(root, path, inner, outer);
  }

  /** Where the stacks stand after the last child of a node. */
  function Popped(path: Path, counts: seq<int>): (r: (Path, seq<int>))
    requires |counts| == |path|
    ensures r.1 == [] || |r.1| == |r.0| + 1
    ensures r.0 <= path
  {
    if counts == [] then ([], []) else Unwind(path[..|path| - 1], counts)
  }

  lemma {:induction false} AfterOneChild(path: Path, counts: seq<int>, n: nat)
    requires |counts| == |path| && n > 0
    ensures n > 1 ==> Unwind(path, counts + [n]) == (path, counts + [n - 1])
    ensures n == 1 ==> Unwind(path, counts + [n]) == Popped(path, counts)
  {
    var all, top := counts + [n], |counts|;
    assert all[..top] == counts;
    assert all[top := n - 1] == counts + [n - 1];
  }

  lemma {:induction false} KeepsPath(root: Pruner, path: Path, more: map<string, Pruner>, up: Path)
    requires HasPath(root, path) && up <= path
    ensures HasPath(Adopt(root, path, more), up)
  {
    PathPrefix(Adopt(root, path, more), path, |up|);
    assert path[..|up|] == up;
  }

  lemma {:induction false} RebuildTree(root: Pruner, path: Path, counts: seq<int>, w: Wish, more: seq<Entry>)
    requires |counts| == |path| + 1 && HasPath(root, path)
    requires DistinctNames(w.kids) && w.name !in At(root, path).children
    ensures
      var built := Adopt(root, path, map[w.name := AsPruner(w)]);
      var (path', counts') := Unwind(path, counts);
      && HasPath(built, path')
      && Run(root, path, counts, Listed(w) + more) == Run(built, path', counts', more)
    decreases w, 1
  {
    hide Adopt, SetAt, HasPath, At, Unwind, AsChildren, ListedAll;
    var e := Entry(w.name, |w.kids|, w.tag);
    var root' := Emplace(root, path, w.name, w.tag);
    var built := Adopt(root, path, map[w.name := AsPruner(w)]);
    var (path', counts') := Unwind(path, counts);
    AdoptInside(root, path, w.name, w.tag, AsChildren(w.kids));
    KeepsPath(root, path, map[w.name := AsPruner(w)], path');
    var all := Listed(w) + more;
    assert all[0] == e && all[1..] == ListedAll(w.kids) + more;
    if w.kids == [] {
      NoWishes(root', path + [w.name]);
      assert all[1..] == more;
    } else {
      RebuildForest(root', path + [w.name], counts, w.kids, more);
      assert Popped(path + [w.name], counts) == Unwind(path, counts) by {
        assert (path + [w.name])[..|path|] == path;
      }
    }
  }

  lemma {:induction false} NoWishes(root: Pruner, path: Path)
    requires HasPath(root, path)
    ensures ListedAll([]) == [] && Adopt(root, path, AsChildren([])) == root
  {
    var node := At(root, path);
    assert node.children + map[] == node.children;
    SetSame(root, path);
  }

  lemma {:induction false} SetSame(root: Pruner, path: Path)
    requires HasPath(root, path)
    ensures SetAt(root, path, At(root, path)) == root
    decreases |path|
  {
    if path != [] {
      SetSame(root.children[path[0]], path[1..]);
      assert root.children[path[0] := root.children[path[0]]] == root.children;
    }
  }

  lemma {:induction false} RebuildForest(root: Pruner, path: Path, counts: seq<int>, ws: seq<Wish>, more: seq<Entry>)
    requires |counts| == |path| && HasPath(root, path) && ws != []
    requires DistinctNames(ws) && forall i | 0 <= i < |ws| :: ws[i].name !in At(root, path).children
    ensures
      var built := Adopt(root, path, AsChildren(ws));
      var (path', counts') := Popped(path, counts);
      && HasPath(built, path')
      && Run(root, path, counts + [|ws|], ListedAll(ws) + more) == Run(built, path', counts', more)
    decreases ws, 0
  {
    hide Adopt, SetAt, HasPath, At, Unwind, Run, AsPruner, Popped, Listed;
    var w, rest, n := ws[0], ws[1..], |ws|;
    var first := map[w.name := AsPruner(w)];
    var built := Adopt(root, path, AsChildren(ws));
    var (path', counts') := Popped(path, counts);
    AfterOneChild(path, counts, n);
    KeepsPath(root, path, AsChildren(ws), path');
    Regroup(Listed(w), ListedAll(rest), more);
    RebuildTree(root, path, counts + [n], w, ListedAll(rest) + more);
    if n == 1 {
      assert rest == [];
      assert ListedAll(rest) + more == more;
      assert AsChildren(ws) == first;
    } else {
      var root' := Adopt(root, path, first);
      AdoptBoth(root, path, first, AsChildren(rest));
      FirstApart(ws);
      RebuildForest(root', path, counts, rest, more);
    }
  }

  lemma {:induction false} FirstApart(ws: seq<Wish>)
    requires ws != [] && DistinctNames(ws)
    ensures DistinctNames(ws[1..])
    ensures map[ws[0].name := AsPruner(ws[0])] + AsChildren(ws[1..]) == AsChildren(ws)
  {
    var name := ws[0].name;
    ChildNames(ws[1..], name);
    assert forall i | 0 <= i < |ws[1..]| :: ws[1..][i] == ws[i + 1];
    assert name !in AsChildren(ws[1..]);
  }

  /**
    Building undoes listing: for every forest with distinct sibling names, the depth-first listing
    rebuilds exactly that forest, with its tags.
  */
  lemma {:induction false} BuildUndoesListing(ws: seq<Wish>)
    requires DistinctNames(ws)
    ensures Build(Pruner(Struct, map[]), ListedAll(ws), |ws|) == Built(Pruner(Struct, AsChildren(ws)))
  {
    var root := Pruner(Struct, map[]);
    if ws != [] {
      RebuildForest(root, [], [], ws, []);
      assert ListedAll(ws) + [] == ListedAll(ws) && [] + [|ws|] == [|ws|];
      assert map[] + AsChildren(ws) == AsChildren(ws);
    }
  }
}
