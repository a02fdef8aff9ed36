/**
  The layouts of lists and maps that pruning understands, told from the schema's names, marks and child
  counts alone, with the backward-compatibility rules of the Parquet format for LIST groups.
*/
module Layouts {
  import opened Collections
  import opened PruneSpec
  import opened PruneTree
  import opened PruneColumns

  /** A LIST group around a single repeated field. */
  ghost predicate IsListGroup(t: Tree)
  {
    WellFormed(t) && !t.elem.isLeaf && |t.kids| == 1 && t.kids[0].elem.isRepeated
  }

  /**
    The repeated field is itself the element: it is no group, or a group with other than one field, or one
    named "array" or like the list with "_tuple" behind it.
  */
  predicate RepeatsTheElement(t: Tree)
    requires |t.kids| == 1
  {
    var field := t.kids[0];
    field.elem.isLeaf || |field.kids| != 1 || field.elem.name == "array" || field.elem.name == t.elem.name + "_tuple"
  }

  /** What a path through the list to one of its columns goes on with at the element. */
  lemma {:induction false} ListWantsItsElement(p: Pruner, norm: string -> string, t: Tree, i: nat, k: nat)
    requires p.tag == List && "element" in p.children && IsListGroup(t) && k < |Paths(t, i)|
    ensures
      var path, field, element := Paths(t, i)[k], t.kids[0], p.children["element"];
      && |path| >= 2 && path[0].elem == t.elem && path[1].elem == field.elem
      && (RepeatsTheElement(t) ==> (Wants(p, norm, path) <==> Wants(element, norm, path[1..])))
      && (!RepeatsTheElement(t) ==>
            && |path| >= 3 && path[2].elem == field.kids[0].elem
            && (Wants(p, norm, path) <==> Wants(element, norm, path[2..])))
  {
    var field := t.kids[0];
    assert WellFormed(field);
    OnlyKidPaths(t, i);
    if !RepeatsTheElement(t) {
      OnlyKidPaths(field, 0);
    }
  }

  lemma {:induction false} OneChildIsCounted(t: Tree)
    requires WellFormed(t) && |t.kids| == 1
    ensures Recount(t.elem, 1) == t.elem
  {
  }

  /** What is left of a list: its wrappers around what is left of the element, or the element's error. */
  lemma {:induction false} ListKeepsItsElement(p: Pruner, norm: string -> string, t: Tree)
    requires p.tag == List && "element" in p.children && IsListGroup(t)
    ensures
      var field, element := t.kids[0], p.children["element"];
      && WellFormed(field)
      && (RepeatsTheElement(t) ==>
            Pruned(p, norm, t) == match Pruned(element, norm, field)
              case Err(e) => Err(e)
              case Ok(kept) => Ok([Node(t.elem, kept)]))
      && (!RepeatsTheElement(t) ==>
            && WellFormed(field.kids[0])
            && Pruned(p, norm, t) == match Pruned(element, norm, field.kids[0])
              case Err(e) => Err(e)
              case Ok(kept) => Ok([Node(t.elem, [Node(field.elem, kept)])]))
  {
    var field := t.kids[0];
    OneChildIsCounted(t);
    assert WellFormed(field);
    if !RepeatsTheElement(t) {
      OneChildIsCounted(field);
      assert WellFormed(field.kids[0]);
    }
  }

  /** Lists of other shapes: a repeated leaf or a repeated group of several fields is its own element. */
  lemma {:induction false} OtherLists(p: Pruner, norm: string -> string, t: Tree)
    requires p.tag == List && "element" in p.children && WellFormed(t) && !IsListGroup(t)
    ensures
      if t.elem.isLeaf then Pruned(p, norm, t) == if t.elem.isRepeated then Ok([t]) else Err(ListNotRepeated)
      else if |t.kids| > 1 then
        Pruned(p, norm, t) == if t.elem.isRepeated then Pruned(p.children["element"], norm, t) else Err(ListNotRepeated)
      else Pruned(p, norm, t) == Err(if t.kids == [] then ListGroupNotStandard else ListChildNotRepeated)
  {
  }

  // ----- structs -----

  ghost predicate NoneNamed(p: Pruner, norm: string -> string, kids: seq<Tree>)
  {
    forall k | 0 <= k < |kids| :: norm(kids[k].elem.name) !in p.children
  }

  lemma {:induction false} UnnamedKidsGo(p: Pruner, norm: string -> string, kids: seq<Tree>)
    requires AllWellFormed(kids) && NoneNamed(p, norm, kids)
    ensures PruneForest(p, norm, kids) == Ok([])
    decreases |kids|
  {
    if kids != [] {
      UnnamedKidsGo(p, norm, kids[1..]);
    }
  }

  /**
    A struct looks its children up by their normalised names: of children of which only one is named by the
    pruner, what that child's pruner keeps of it is kept, and nothing of the others.
  */
  lemma {:induction false} StructPicksByName(p: Pruner, norm: string -> string, a: seq<Tree>, kid: Tree, b: seq<Tree>)
    requires AllWellFormed(a) && WellFormed(kid) && AllWellFormed(b)
    requires NoneNamed(p, norm, a) && norm(kid.elem.name) in p.children && NoneNamed(p, norm, b)
    ensures AllWellFormed(a + [kid] + b)
    ensures PruneForest(p, norm, a + [kid] + b) == Pruned(p.children[norm(kid.elem.name)], norm, kid)
    decreases |a|
  {
    hide WellFormed, Pruned;
    var all := a + [kid] + b;
    if a == [] {
      assert all[0] == kid && all[1..] == b;
      UnnamedKidsGo(p, norm, b);
      var kept := Pruned(p.children[norm(kid.elem.name)], norm, kid);
      if kept.Ok? {
        assert kept.value + [] == kept.value;
      }
    } else {
      assert all[0] == a[0] && all[1..] == a[1..] + [kid] + b;
      StructPicksByName(p, norm, a[1..], kid, b);
    }
  }

  // ----- maps -----

  /** A group marked as a map around one repeated entry of a key and perhaps a value. */
  ghost predicate IsMapGroup(t: Tree)
  {
    && WellFormed(t) && !t.elem.isLeaf && t.elem.isMap && |t.kids| == 1
    && t.kids[0].elem.isRepeated && 1 <= |t.kids[0].kids| <= 2
  }

  /** A map keeps both wrappers around what is left of its key and of its value; nothing else is taken for a map. */
  lemma {:induction false} MapKeepsKeyAndValue(p: Pruner, norm: string -> string, t: Tree)
    requires p.tag == Map && "key" in p.children && "value" in p.children && WellFormed(t)
    ensures Pruned(p, norm, t).Ok? ==> IsMapGroup(t)
    ensures IsMapGroup(t) ==>
      var entry := t.kids[0];
      && AllWellFormed(entry.kids)
      && var key := Pruned(p.children["key"], norm, entry.kids[0]);
      && (key.Err? ==> Pruned(p, norm, t) == key)
      && (key.Ok? && |entry.kids| == 1 ==> Pruned(p, norm, t) == Ok([Node(t.elem, [Node(entry.elem, key.value)])]))
      && (key.Ok? && |entry.kids| == 2 ==>
            var value := Pruned(p.children["value"], norm, entry.kids[1]);
            && (value.Err? ==> Pruned(p, norm, t) == value)
            && (value.Ok? ==>
                  Pruned(p, norm, t) == Ok([Node(t.elem, [Node(entry.elem, key.value + value.value)])])))
  {
    assert Pruned(p, norm, t) == PrunedMap(p, norm, t);
    if IsMapGroup(t) {
      var entry := t.kids[0];
      assert WellFormed(entry);
      assert Recount(t.elem, 1) == t.elem && Recount(entry.elem, |entry.kids|) == entry.elem;
    }
  }

  // ----- one list of each kind -----

  function Group(name: string, n: int, repeated: bool): Element
  {
    Element(name, false, Some(n), repeated, false)
  }

  /** A list "a" of one leaf "x" under a repeated group of some name. */
  function ListOver(middle: string): Tree
  {
    Node(Group("a", 1, false), [Node(Group(middle, 1, true), [X])])
  }

  const LEAF := Pruner(Value, map[])
  const STRUCT_OF_X := Pruner(Struct, map["x" := LEAF])
  const LIST_OF_X := Pruner(List, map["element" := STRUCT_OF_X])
  const LIST_OF_LEAVES := Pruner(List, map["element" := LEAF])
  const X := Node(Element("x", true, None, false, false), [])

  /**
    The name of the middle group decides what a list is a list of: under "array" and "a_tuple" it is a list
    of structs with a field x, and under any other name a list of leaves.
  */
  lemma {:induction false} TheNameDecides(middle: string, norm: string -> string)
    requires norm("x") == "x"
    ensures
      var t := ListOver(middle);
      && WellFormed(t)
      && (middle == "array" || middle == "a_tuple" ==>
            && Pruned(LIST_OF_X, norm, t) == Ok([t])
            && Pruned(LIST_OF_LEAVES, norm, t) == Err(GroupInsteadOfLeaf))
      && (middle != "array" && middle != "a_tuple" ==>
            && Pruned(LIST_OF_X, norm, t) == Err(LeafInsteadOfStruct)
            && Pruned(LIST_OF_LEAVES, norm, t) == Ok([t]))
  {
    var t := ListOver(middle);
    var field := t.kids[0];
    var leaf := field.kids[0];
    assert WellFormed(leaf) && WellFormed(field) && WellFormed(t);
    assert "a" + "_tuple" == "a_tuple";
    ListKeepsItsElement(LIST_OF_X, norm, t);
    ListKeepsItsElement(LIST_OF_LEAVES, norm, t);
    StructOfX(field, leaf, norm);
  }

  lemma {:induction false} StructOfX(field: Tree, leaf: Tree, norm: string -> string)
    requires field.kids == [leaf] && leaf == X && norm("x") == "x"
    requires WellFormed(field) && WellFormed(leaf) && !field.elem.isLeaf
    ensures Pruned(STRUCT_OF_X, norm, field) == Ok([field])
  {
    var p := STRUCT_OF_X;
    assert p.children["x"] == LEAF;
    assert field.kids[1..] == [];
    assert PruneForest(p, norm, []) == Ok([]);
    assert Pruned(LEAF, norm, leaf) == Ok([leaf]);
    assert [leaf] + [] == [leaf];
    assert PruneForest(p, norm, field.kids) == Ok([leaf]);
    OneChildIsCounted(field);
  }
}
