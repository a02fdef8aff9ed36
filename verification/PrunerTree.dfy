/**
  Building the pruner from a depth-first list of names, child counts and tags (add_depth_first in
  NativeParquetJni.cpp). The stack of node pointers is a stack of paths from the root.
*/
module PrunerTree {
  import opened PruneSpec

  datatype Entry = Entry(name: string, numChildren: int, tag: Tag)

  /** Built: the tree is complete. Rejected: something is missing. Overrun: entries follow the complete tree. */
  datatype Outcome = Built(root: Pruner) | Rejected | Overrun

  type Path = seq<string>

  // ----- nodes by path -----

  predicate HasPath(root: Pruner, path: Path)
    decreases |path|
  {
    path == [] || (path[0] in root.children && HasPath(root.children[path[0]], path[1..]))
  }

  function At(root: Pruner, path: Path): Pruner
    requires HasPath(root, path)
    decreases |path|
  {
    if path == [] then root else At(root.children[path[0]], path[1..])
  }

  function SetAt(root: Pruner, path: Path, node: Pruner): (r: Pruner)
    requires HasPath(root, path)
    ensures HasPath(r, path) && At(r, path) == node
    decreases |path|
  {
    if path == [] then node
    else root.(children := root.children[path[0] := SetAt(root.children[path[0]], path[1..], node)])
  }

  /** Insert a childless node unless the name is taken. */
  function Emplace(root: Pruner, path: Path, name: string, tag: Tag): (r: Pruner)
    requires HasPath(root, path)
    ensures HasPath(r, path + [name])
  {
    var node := At(root, path);
    var r := if name in node.children then root
             else SetAt(root, path, node.(children := node.children[name := Pruner(tag, map[])]));
    ExtendPath(r, path, name);
    r
  }

  /** A name that comes again shares the node of its first entry, whatever its tag. */
  lemma {:induction false} RepeatedNamesShareANode(root: Pruner, path: Path, name: string, first: Tag, second: Tag)
    requires HasPath(root, path)
    ensures Emplace(Emplace(root, path, name, first), path, name, second) == Emplace(root, path, name, first)
    ensures name !in At(root, path).children ==>
      At(Emplace(root, path, name, first), path + [name]) == Pruner(first, map[])
    ensures name in At(root, path).children ==> Emplace(root, path, name, first) == root
  {
    var node, r := At(root, path), Emplace(root, path, name, first);
    if name !in node.children {
      assert At(r, path) == node.(children := node.children[name := Pruner(first, map[])]);
      ExtendPath(r, path, name);
    }
  }

  lemma {:induction false} ExtendPath(root: Pruner, path: Path, name: string)
    requires HasPath(root, path) && name in At(root, path).children
    ensures HasPath(root, path + [name]) && At(root, path + [name]) == At(root, path).children[name]
    decreases |path|
  {
    if path != [] {
      ExtendPath(root.children[path[0]], path[1..], name);
      assert (path + [name])[1..] == path[1..] + [name];
    } else {
      assert ([] + [name])[1..] == [];
    }
  }

  lemma {:induction false} PathPrefix(root: Pruner, path: Path, k: nat)
    requires HasPath(root, path) && k <= |path|
    ensures HasPath(root, path[..k])
    decreases |path|
  {
    if k > 0 {
      PathPrefix(root.children[path[0]], path[1..], k - 1);
      assert path[..k][1..] == path[1..][..k - 1];
    }
  }

  // ----- the run of the loop -----

  /** A leaf is done: go up past every node whose children are all there. */
  function Unwind(path: Path, counts: seq<int>): (r: (Path, seq<int>))
    requires |counts| == |path| + 1
    ensures r.1 == [] || |r.1| == |r.0| + 1
    ensures r.0 <= path
    decreases |path|
  {
    var top := |counts| - 1;
    if counts[top] - 1 > 0 then (path, counts[top := counts[top] - 1])
    else if top == 0 then ([], [])
    else Unwind(path[..top - 1], counts[..top])
  }

  function Run(root: Pruner, path: Path, counts: seq<int>, entries: seq<Entry>): Outcome
    requires counts == [] || (|counts| == |path| + 1 && HasPath(root, path))
    decreases |entries|
  {
    if entries == [] then if counts == [] then Built(root) else Rejected
    else if counts == [] then Overrun
    else
      var e := entries[0];
      var root' := Emplace(root, path, e.name, e.tag);
      if e.numChildren > 0 then Run(root', path + [e.name], counts + [e.numChildren], entries[1..])
      else
        var (path', counts') := Unwind(path, counts);
        StillThere(root', path, e.name, path');
        Run(root', path', counts', entries[1..])
  }

  lemma {:induction false} StillThere(root: Pruner, path: Path, name: string, up: Path)
    requires HasPath(root, path + [name]) && up <= path
    ensures HasPath(root, up)
  {
    PathPrefix(root, path + [name], |up|);
    assert (path + [name])[..|up|] == up;
  }

  function Build(root: Pruner, entries: seq<Entry>, parentNumChildren: int): Outcome
  {
    if parentNumChildren == 0 then Built(root) else Run(root, [], [parentNumChildren], entries)
  }

  method AddDepthFirst(root: Pruner, entries: seq<Entry>, parentNumChildren: int) returns (r: Outcome)
    ensures r == Build(root, entries, parentNumChildren)
  {
    hide Emplace, HasPath;
    if parentNumChildren == 0 {
      return Built(root);
    }
    var tree := root;
    EmptyPath(root);
    var treeStack: seq<Path> := [[]];
    var numChildrenStack := [parentNumChildren];
    ghost var path: Path := [];
    for i := 0 to |entries|
      invariant |treeStack| == |numChildrenStack|
      invariant treeStack != [] ==>
        && |treeStack| == |path| + 1 && HasPath(tree, path)
        && forall k | 0 <= k < |treeStack| :: treeStack[k] == path[..k]
      invariant Run(tree, path, numChildrenStack, entries[i..]) == Run(root, [], [parentNumChildren], entries)
    {
      if treeStack == [] {
        assert Run(tree, path, numChildrenStack, entries[i..]) == Overrun;
        return Overrun;
      }
      var name, num, tag := entries[i].name, entries[i].numChildren, entries[i].tag;
      var top := treeStack[|treeStack| - 1];
      assert top == path && entries[i..][1..] == entries[i + 1..];
      tree := Emplace(tree, top, name, tag);
      if num > 0 {
        treeStack := treeStack + [top + [name]];
        numChildrenStack := numChildrenStack + [num];
        path := path + [name];
      } else {
        ghost var from, goal := path, Unwind(path, numChildrenStack);
        var done := false;
        while !done
          invariant |treeStack| == |numChildrenStack|
          invariant treeStack != [] ==>
            && |treeStack| == |path| + 1 && path <= from
            && (forall k | 0 <= k < |treeStack| :: treeStack[k] == path[..k])
          invariant treeStack == [] ==> done && path == []
          invariant if done then (path, numChildrenStack) == goal else Unwind(path, numChildrenStack) == goal
          decreases !done, |treeStack|
        {
          var last := |numChildrenStack| - 1;
          var parentChildrenLeft := numChildrenStack[last] - 1;
          if parentChildrenLeft > 0 {
            numChildrenStack := numChildrenStack[last := parentChildrenLeft];
            done := true;
          } else {
            treeStack := treeStack[..last];
            numChildrenStack := numChildrenStack[..last];
            path := if last == 0 then [] else path[..last - 1];
          }
          if |treeStack| <= 0 {
            done := true;
          }
        }
        if treeStack != [] {
          StillThere(tree, from, name, path);
        }
      }
    }
    assert entries[|entries|..] == [];
    if treeStack != [] || numChildrenStack != [] {
      return Rejected;
    }
    r := Built(tree);
  }

  lemma {:induction false} EmptyPath(root: Pruner)
    ensures HasPath(root, [])
  {
  }
}
